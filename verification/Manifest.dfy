/**
 The canonical source manifest: a header and one line per file, parsed strictly, and the
 printer that is its exact inverse.
 */
module Manifest {
  import opened Words
  import opened Text

  const MAX_SOURCE_MANIFEST_BYTES: nat := 65_536
  const MAX_SOURCE_FILE_BYTES: nat := 262_144
  const MAX_SOURCE_BYTES: nat := 1_048_576
  const MAX_SOURCE_FILES: nat := 256
  const MODE_PLAIN: nat := 33188
  const MODE_EXECUTABLE: nat := 33261

  const SCHEMA: string := "schema=makopa-source-manifest-v1"
  const REPOSITORY: string := "repository=git+https:" + "//github.com/xsparc/MakopaOS"

  datatype SourceEntry = SourceEntry(mode: nat, length: u64, sha256: seq<Byte>, path: string)

  datatype SourceManifest = SourceManifest(treePath: string, gitTreeSha1: seq<Byte>, entries: seq<SourceEntry>)

  // Paths ------------------------------------------------------------------------------------------

  predicate PathChar(c: char) {
    'A' <= c <= 'Z' || 'a' <= c <= 'z' || '0' <= c <= '9' || c == '.' || c == '_' || c == '-' || c == '/'
  }

  predicate PlainPart(part: string) { part != "" && part != "." && part != ".." }

  predicate ValidPath(path: string) {
    && path != "" && |path| <= 128 && path[0] != '/' && path[|path| - 1] != '/'
    && (forall k :: 0 <= k < |path| - 1 ==> !(path[k] == '/' && path[k + 1] == '/'))
    && '\\' !in path
    && (forall part :: part in Split(path, '/') ==> PlainPart(part))
    && forall k :: 0 <= k < |path| ==> PathChar(path[k])
  }

  /** Byte order. */
  predicate Less(a: string, b: string) {
    if b == "" then false
    else if a == "" then true
    else if a[0] != b[0] then a[0] < b[0]
    else Less(a[1..], b[1..])
  }

  /** What the parser asks of a path after its predecessor: larger, and not inside it. */
  predicate Follows(prior: string, path: string) {
    Less(prior, path) && !(prior + "/" <= path)
  }

  // Entry lines --------------------------------------------------------------------------------------

  function ParseMode(text: string): Option<nat> {
    if text == "100644" then Some(MODE_PLAIN) else if text == "100755" then Some(MODE_EXECUTABLE) else None
  }

  function PrintMode(mode: nat): string {
    if mode == MODE_EXECUTABLE then "100755" else "100644"
  }

  /** The text before the first space and the text after it. */
  function Field(s: string): Option<(string, string)> {
    var i := IndexOf(s, ' ');
    if i == |s| then None else Some((s[..i], s[i + 1..]))
  }

  function ParseEntry(line: string): Option<SourceEntry> {
    match Field(line)
    case None => None
    case Some((modeText, rest)) =>
      match Field(rest)
      case None => None
      case Some((lengthText, rest2)) =>
        match Field(rest2)
        case None => None
        case Some((digestText, path)) =>
          var mode := ParseMode(modeText);
          var length := ParseDecimal(lengthText);
          var sha256 := DecodeHex(digestText, 32);
          if mode.None? || length.None? || sha256.None? || length.value > MAX_SOURCE_FILE_BYTES || !ValidPath(path)
          then None
          else Some(SourceEntry(mode.value, length.value, sha256.value, path))
  }

  predicate EntryOk(e: SourceEntry) {
    && (e.mode == MODE_PLAIN || e.mode == MODE_EXECUTABLE)
    && e.length <= MAX_SOURCE_FILE_BYTES && |e.sha256| == 32 && ValidPath(e.path)
  }

  function EntryLine(e: SourceEntry): string {
    PrintMode(e.mode) + " " + (PrintDecimal(e.length) + " " + (EncodeHex(e.sha256) + " " + e.path))
  }

  lemma FieldExact(s: string, a: string, rest: string)
    ensures Field(s) == Some((a, rest)) <==> Lacks(a, ' ') && s == a + " " + rest
  {
    if Lacks(a, ' ') && s == a + " " + rest {
      IndexIsFirst(a, ' ', rest);
      assert s == a + [' '] + rest;
      assert s[..|a|] == a && s[|a| + 1..] == rest;
    }
    if Field(s) == Some((a, rest)) {
      var i := IndexOf(s, ' ');
      assert s == s[..i] + [' '] + s[i + 1..];
    }
  }

  lemma DigitsLack(s: string)
    ensures Digits(s) ==> Lacks(s, ' ')
    ensures HexDigits(s) ==> Lacks(s, ' ')
  {
  }

  lemma ModeExact(text: string, mode: nat)
    ensures ParseMode(text) == Some(mode)
            <==> (mode == MODE_PLAIN || mode == MODE_EXECUTABLE) && text == PrintMode(mode)
    ensures Lacks(PrintMode(mode), ' ')
  {
  }

  /** A line is accepted for an entry exactly when it is that entry's canonical line. */
  lemma EntryExact(line: string, e: SourceEntry)
    ensures ParseEntry(line) == Some(e) <==> EntryOk(e) && line == EntryLine(e)
  {
    hide Field, ParseMode, ParseDecimal, DecodeHex, PrintMode, PrintDecimal, EncodeHex, ValidPath, Digits, HexDigits,
      Lacks;
    ModeExact(PrintMode(e.mode), e.mode);
    DecimalExact(PrintDecimal(e.length), e.length);
    HexExact(EncodeHex(e.sha256), 32, e.sha256);
    DigitsLack(PrintDecimal(e.length));
    DigitsLack(EncodeHex(e.sha256));
    if EntryOk(e) && line == EntryLine(e) {
      var rest2 := EncodeHex(e.sha256) + " " + e.path;
      var rest := PrintDecimal(e.length) + " " + rest2;
      FieldExact(line, PrintMode(e.mode), rest);
      FieldExact(rest, PrintDecimal(e.length), rest2);
      FieldExact(rest2, EncodeHex(e.sha256), e.path);
    }
    if ParseEntry(line) == Some(e) {
      var (modeText, rest) := Field(line).value;
      var (lengthText, rest2) := Field(rest).value;
      var (digestText, path) := Field(rest2).value;
      FieldExact(line, modeText, rest);
      FieldExact(rest, lengthText, rest2);
      FieldExact(rest2, digestText, path);
      ModeExact(modeText, e.mode);
      DecimalExact(lengthText, e.length);
      HexExact(digestText, 32, e.sha256);
    }
  }

  // All entries --------------------------------------------------------------------------------------

  predicate InOrder(prior: Option<string>, path: string) {
    prior.None? || Follows(prior.value, path)
  }

  function ParseEntries(lines: seq<string>, prior: Option<string>, aggregate: nat): Option<seq<SourceEntry>> {
    if lines == [] then Some([])
    else
      match ParseEntry(lines[0])
      case None => None
      case Some(e) =>
        if aggregate + e.length > MAX_SOURCE_BYTES || !InOrder(prior, e.path) then None
        else
          match ParseEntries(lines[1..], Some(e.path), aggregate + e.length)
          case None => None
          case Some(rest) => Some([e] + rest)
  }

  predicate EntriesOk(entries: seq<SourceEntry>, prior: Option<string>, aggregate: nat) {
    entries != [] ==>
      var e := entries[0];
      && EntryOk(e) && aggregate + e.length <= MAX_SOURCE_BYTES && InOrder(prior, e.path)
      && EntriesOk(entries[1..], Some(e.path), aggregate + e.length)
  }

  function EntryLines(entries: seq<SourceEntry>): (lines: seq<string>)
    ensures |lines| == |entries| && forall k :: 0 <= k < |lines| ==> lines[k] == EntryLine(entries[k])
  {
    if entries == [] then [] else [EntryLine(entries[0])] + EntryLines(entries[1..])
  }

  lemma {:induction false} EntriesExact(
    lines: seq<string>, entries: seq<SourceEntry>, prior: Option<string>, aggregate: nat)
    ensures ParseEntries(lines, prior, aggregate) == Some(entries)
            <==> EntriesOk(entries, prior, aggregate) && lines == EntryLines(entries)
    decreases |lines| + |entries|
  {
    hide ParseEntry, EntryOk, EntryLine, InOrder;
    if lines != [] && entries != [] {
      var e := entries[0];
      EntryExact(lines[0], e);
      EntriesExact(lines[1..], entries[1..], Some(e.path), aggregate + e.length);
      assert entries == [e] + entries[1..];
      assert lines == [lines[0]] + lines[1..];
    }
  }

  function Total(entries: seq<SourceEntry>): nat {
    if entries == [] then 0 else entries[0].length + Total(entries[1..])
  }

  predicate Ascending(entries: seq<SourceEntry>) {
    forall i :: 0 <= i < |entries| - 1 ==> Follows(entries[i].path, entries[i + 1].path)
  }

  /** The running checks amount to: every entry fits, the sizes sum within bounds, neighbours ascend. */
  lemma {:induction false} RunningChecks(entries: seq<SourceEntry>, prior: Option<string>, aggregate: nat)
    requires aggregate <= MAX_SOURCE_BYTES
    ensures EntriesOk(entries, prior, aggregate)
            <==> && (forall k :: 0 <= k < |entries| ==> EntryOk(entries[k]))
                 && aggregate + Total(entries) <= MAX_SOURCE_BYTES
                 && Ascending(entries) && (entries != [] ==> InOrder(prior, entries[0].path))
    decreases |entries|
  {
    hide EntryOk, Follows;
    if entries != [] {
      var e, rest := entries[0], entries[1..];
      if aggregate + e.length <= MAX_SOURCE_BYTES {
        RunningChecks(rest, Some(e.path), aggregate + e.length);
        assert forall k :: 0 <= k < |rest| ==> rest[k] == entries[k + 1];
        assert Ascending(entries) <==> Ascending(rest) && (rest != [] ==> Follows(e.path, rest[0].path)) by {
          AscendingTail(entries);
        }
        assert (forall k :: 0 <= k < |entries| ==> EntryOk(entries[k]))
            <==> EntryOk(e) && forall k :: 0 <= k < |rest| ==> EntryOk(rest[k]) by {
          AllTail(entries);
        }
      }
    }
  }

  lemma AscendingTail(entries: seq<SourceEntry>)
    requires entries != []
    ensures var rest := entries[1..];
            Ascending(entries) <==> Ascending(rest) && (rest != [] ==> Follows(entries[0].path, rest[0].path))
  {
    hide Follows;
    var rest := entries[1..];
    if Ascending(rest) && (rest != [] ==> Follows(entries[0].path, rest[0].path)) {
      forall i | 0 <= i < |entries| - 1 ensures Follows(entries[i].path, entries[i + 1].path) {
        if i > 0 { assert entries[i] == rest[i - 1] && entries[i + 1] == rest[i]; }
      }
    }
    if Ascending(entries) {
      forall i | 0 <= i < |rest| - 1 ensures Follows(rest[i].path, rest[i + 1].path) {
        assert rest[i] == entries[i + 1] && rest[i + 1] == entries[i + 2];
      }
    }
  }

  lemma AllTail(entries: seq<SourceEntry>)
    requires entries != []
    ensures var rest := entries[1..];
            (forall k :: 0 <= k < |entries| ==> EntryOk(entries[k]))
            <==> EntryOk(entries[0]) && forall k :: 0 <= k < |rest| ==> EntryOk(rest[k])
  {
    hide EntryOk;
    var rest := entries[1..];
    if EntryOk(entries[0]) && forall k :: 0 <= k < |rest| ==> EntryOk(rest[k]) {
      forall k | 0 <= k < |entries| ensures EntryOk(entries[k]) {
        if k > 0 { assert entries[k] == rest[k - 1]; }
      }
    }
    if forall k :: 0 <= k < |entries| ==> EntryOk(entries[k]) {
      forall k | 0 <= k < |rest| ensures EntryOk(rest[k]) {
        assert rest[k] == entries[k + 1];
      }
    }
  }

  // The whole manifest -------------------------------------------------------------------------------

  datatype AdmissionError = ManifestError

  /** The nonempty rest of a line after its key. */
  function ValueLine(line: string, key: string): Option<string> {
    if key <= line && |line| > |key| then Some(line[|key|..]) else None
  }

  lemma ValueExact(line: string, key: string, value: string)
    ensures ValueLine(line, key) == Some(value) <==> value != "" && line == key + value
  {
    if key <= line { assert line == key + line[|key|..]; }
  }

  function ParseLines(lines: seq<string>): Option<SourceManifest> {
    if |lines| < 5 || lines[0] != SCHEMA || lines[1] != REPOSITORY then None
    else
      var treePath := ValueLine(lines[2], "tree-path=");
      var treeHex := ValueLine(lines[3], "git-tree-sha1=");
      var countText := ValueLine(lines[4], "file-count=");
      if treePath.None? || treeHex.None? || countText.None? || !ValidPath(treePath.value) then None
      else
        var sha1 := DecodeHex(treeHex.value, 20);
        var count := ParseDecimal(countText.value);
        if sha1.None? || count.None? || count.value == 0 || count.value > MAX_SOURCE_FILES then None
        else
          match ParseEntries(lines[5..], None, 0)
          case None => None
          case Some(entries) =>
            if |entries| != count.value then None else Some(SourceManifest(treePath.value, sha1.value, entries))
  }

  /** The framing every manifest must have before it is read line by line. */
  predicate Framed(bytes: string) {
    && bytes != "" && |bytes| <= MAX_SOURCE_MANIFEST_BYTES
    && (forall k :: 0 <= k < |bytes| ==> bytes[k] as int < 128)
    && bytes[|bytes| - 1] == '\n' && '\r' !in bytes && '\0' !in bytes
    && (|bytes| >= 2 ==> bytes[|bytes| - 2] != '\n')
  }

  function Parse(bytes: string): Result<SourceManifest, AdmissionError> {
    if !Framed(bytes) then Err(ManifestError)
    else
      match ParseLines(Split(bytes[..|bytes| - 1], '\n'))
      case None => Err(ManifestError)
      case Some(m) => Ok(m)
  }

  predicate WellFormed(m: SourceManifest) {
    && ValidPath(m.treePath) && |m.gitTreeSha1| == 20
    && 0 < |m.entries| <= MAX_SOURCE_FILES
    && (forall k :: 0 <= k < |m.entries| ==> EntryOk(m.entries[k]))
    && Total(m.entries) <= MAX_SOURCE_BYTES && Ascending(m.entries)
  }

  function HeaderLines(m: SourceManifest): seq<string> {
    [ SCHEMA, REPOSITORY, "tree-path=" + m.treePath, "git-tree-sha1=" + EncodeHex(m.gitTreeSha1),
      "file-count=" + PrintDecimal(|m.entries|) ]
  }

  function PrintLines(m: SourceManifest): seq<string> { HeaderLines(m) + EntryLines(m.entries) }

  function Print(m: SourceManifest): string { Join(PrintLines(m), '\n') + "\n" }

  /** Lines are accepted for a manifest exactly when they are its canonical lines. */
  lemma LinesExact(lines: seq<string>, m: SourceManifest)
    ensures ParseLines(lines) == Some(m) <==> WellFormed(m) && lines == PrintLines(m)
  {
    hide ParseEntries, EntriesOk, EntryLines, EntryOk, Total, Ascending, ValidPath, ParseDecimal, DecodeHex,
      PrintDecimal, EncodeHex, ValueLine;
    RunningChecks(m.entries, None, 0);
    if WellFormed(m) && lines == PrintLines(m) {
      EntriesExact(lines[5..], m.entries, None, 0);
      assert lines[5..] == EntryLines(m.entries);
      HeaderReads(m);
    }
    if ParseLines(lines) == Some(m) {
      EntriesExact(lines[5..], m.entries, None, 0);
      HeaderWritten(lines, m);
      assert lines == lines[..5] + lines[5..];
      assert lines[..5] == HeaderLines(m);
    }
  }

  lemma HeaderReads(m: SourceManifest)
    requires WellFormed(m)
    ensures var h := HeaderLines(m);
            && ValueLine(h[2], "tree-path=") == Some(m.treePath)
            && ValueLine(h[3], "git-tree-sha1=") == Some(EncodeHex(m.gitTreeSha1))
            && ValueLine(h[4], "file-count=") == Some(PrintDecimal(|m.entries|))
            && DecodeHex(EncodeHex(m.gitTreeSha1), 20) == Some(m.gitTreeSha1)
            && ParseDecimal(PrintDecimal(|m.entries|)) == Some(|m.entries|)
  {
    hide ParseDecimal, DecodeHex, PrintDecimal, EncodeHex, ValueLine, EntryOk, Total, Ascending;
    var h := HeaderLines(m);
    HexExact(EncodeHex(m.gitTreeSha1), 20, m.gitTreeSha1);
    DecimalExact(PrintDecimal(|m.entries|), |m.entries|);
    ValueExact(h[2], "tree-path=", m.treePath);
    ValueExact(h[3], "git-tree-sha1=", EncodeHex(m.gitTreeSha1));
    ValueExact(h[4], "file-count=", PrintDecimal(|m.entries|));
  }

  lemma HeaderWritten(lines: seq<string>, m: SourceManifest)
    requires ParseLines(lines) == Some(m)
    ensures |lines| >= 5 && lines[0] == SCHEMA && lines[1] == REPOSITORY
    ensures lines[2] == "tree-path=" + m.treePath && lines[3] == "git-tree-sha1=" + EncodeHex(m.gitTreeSha1)
    ensures lines[4] == "file-count=" + PrintDecimal(|m.entries|) && |m.gitTreeSha1| == 20
  {
    hide ParseEntries, ParseDecimal, DecodeHex, PrintDecimal, EncodeHex, ValueLine, ValidPath;
    var treeHex := ValueLine(lines[3], "git-tree-sha1=").value;
    var countText := ValueLine(lines[4], "file-count=").value;
    ValueExact(lines[2], "tree-path=", m.treePath);
    ValueExact(lines[3], "git-tree-sha1=", treeHex);
    ValueExact(lines[4], "file-count=", countText);
    HexExact(treeHex, 20, m.gitTreeSha1);
    DecimalExact(countText, |m.entries|);
  }

  // Printed manifests are framed -------------------------------------------------------------------------

  predicate PlainChar(c: char) { ' ' <= c < 127 as char }

  predicate Plain(s: string) { forall k :: 0 <= k < |s| ==> PlainChar(s[k]) }

  lemma PlainJoins(a: string, b: string)
    requires Plain(a) && Plain(b)
    ensures Plain(a + b)
  {
  }

  lemma PlainPieces(s: string)
    ensures Digits(s) ==> Plain(s)
    ensures HexDigits(s) ==> Plain(s)
    ensures ValidPath(s) ==> Plain(s)
  {
    forall k | 0 <= k < |s|
      ensures Digit(s[k]) ==> PlainChar(s[k])
      ensures HexDigit(s[k]) ==> PlainChar(s[k])
      ensures PathChar(s[k]) ==> PlainChar(s[k])
    {
    }
  }

  lemma PlainEntry(e: SourceEntry)
    requires EntryOk(e)
    ensures Plain(EntryLine(e)) && EntryLine(e) != ""
  {
    hide PrintDecimal, EncodeHex, ValidPath, Digits, HexDigits, PlainChar;
    PlainPieces(PrintDecimal(e.length));
    PlainPieces(EncodeHex(e.sha256));
    PlainPieces(e.path);
    PlainMode(e.mode);
  }

  lemma PlainMode(mode: nat)
    ensures Plain(PrintMode(mode)) && Plain(" ")
  {
  }

  lemma PlainLines(m: SourceManifest)
    requires WellFormed(m)
    ensures forall k :: 0 <= k < |PrintLines(m)| ==> Plain(PrintLines(m)[k])
    ensures PrintLines(m)[|PrintLines(m)| - 1] != ""
  {
    hide PrintDecimal, EncodeHex, ValidPath, Digits, HexDigits, PlainChar, Plain, EntryLine, EntryOk, Total, Ascending;
    PlainPieces(m.treePath);
    PlainPieces(EncodeHex(m.gitTreeSha1));
    PlainPieces(PrintDecimal(|m.entries|));
    PlainLabels();
    PlainJoins("tree-path=", m.treePath);
    PlainJoins("git-tree-sha1=", EncodeHex(m.gitTreeSha1));
    PlainJoins("file-count=", PrintDecimal(|m.entries|));
    forall k | 0 <= k < |m.entries| ensures Plain(EntryLine(m.entries[k])) && EntryLine(m.entries[k]) != "" {
      PlainEntry(m.entries[k]);
    }
  }

  lemma PlainLabels()
    ensures Plain(SCHEMA) && Plain(REPOSITORY) && Plain("tree-path=") && Plain("git-tree-sha1=") && Plain("file-count=")
  {
    PlainJoins("repository=git+https:", "//github.com/xsparc/MakopaOS");
  }

  /** Joined plain lines hold only plain characters and the separator, and end as their last line does. */
  lemma {:induction false} JoinedPlain(lines: seq<string>)
    requires |lines| > 0 && (forall k :: 0 <= k < |lines| ==> Plain(lines[k])) && lines[|lines| - 1] != ""
    ensures var s := Join(lines, '\n');
            && s != "" && PlainChar(s[|s| - 1])
            && forall k :: 0 <= k < |s| ==> PlainChar(s[k]) || s[k] == '\n'
    decreases |lines|
  {
    hide PlainChar;
    if |lines| > 1 {
      JoinedPlain(lines[1..]);
      var rest := Join(lines[1..], '\n');
      var s := lines[0] + ['\n'] + rest;
      assert s[|s| - 1] == rest[|rest| - 1];
    }
  }

  lemma PlainIsClean(c: char)
    requires PlainChar(c) || c == '\n'
    ensures c as int < 128 && c != '\r' && c != '\0'
    ensures PlainChar(c) ==> c != '\n'
  {
  }

  lemma PrintIsFramed(m: SourceManifest)
    requires WellFormed(m) && |Print(m)| <= MAX_SOURCE_MANIFEST_BYTES
    ensures Framed(Print(m))
  {
    hide WellFormed, PrintLines, PlainChar;
    PlainLines(m);
    PrintNonempty(m);
    JoinedPlain(PrintLines(m));
    var body := Join(PrintLines(m), '\n');
    var bytes := Print(m);
    forall k | 0 <= k < |bytes| ensures bytes[k] as int < 128 && bytes[k] != '\r' && bytes[k] != '\0' {
      PlainIsClean(bytes[k]);
    }
    PlainIsClean(body[|body| - 1]);
  }

  lemma PrintNonempty(m: SourceManifest)
    ensures |PrintLines(m)| >= 5
  {
  }

  lemma LinesSplitBack(m: SourceManifest)
    requires WellFormed(m)
    ensures |PrintLines(m)| > 0 && Split(Join(PrintLines(m), '\n'), '\n') == PrintLines(m)
  {
    hide WellFormed, PrintLines, PlainChar;
    PlainLines(m);
    PrintNonempty(m);
    var lines := PrintLines(m);
    forall k | 0 <= k < |lines| ensures Lacks(lines[k], '\n') {
      forall i | 0 <= i < |lines[k]| ensures lines[k][i] != '\n' { PlainIsClean(lines[k][i]); }
    }
    SplitJoin(lines, '\n');
  }

  /**
   Parsing and printing are inverse: bytes are accepted as a manifest exactly when the manifest
   is well formed, fits, and prints to those bytes.
   */
  lemma ParseExact(bytes: string, m: SourceManifest)
    ensures Parse(bytes) == Ok(m)
            <==> WellFormed(m) && |bytes| <= MAX_SOURCE_MANIFEST_BYTES && bytes == Print(m)
  {
    hide WellFormed, PrintLines, ParseLines, Join, Split;
    PrintNonempty(m);
    if WellFormed(m) && |bytes| <= MAX_SOURCE_MANIFEST_BYTES && bytes == Print(m) {
      PrintIsFramed(m);
      LinesSplitBack(m);
      assert bytes[..|bytes| - 1] == Join(PrintLines(m), '\n');
      LinesExact(PrintLines(m), m);
    }
    if Parse(bytes) == Ok(m) {
      var body := bytes[..|bytes| - 1];
      LinesExact(Split(body, '\n'), m);
      JoinSplit(body, '\n');
      assert bytes == body + "\n";
    }
  }

  // What the order of neighbours gives --------------------------------------------------------------------

  lemma {:induction false} LessTransitive(a: string, b: string, c: string)
    requires Less(a, b) && Less(b, c)
    ensures Less(a, c) && a != c
    decreases |a|
  {
    if a != "" && a[0] == b[0] == c[0] { LessTransitive(a[1..], b[1..], c[1..]); }
  }

  /** No two entries of a well-formed manifest share a path, and paths ascend throughout. */
  lemma {:induction false} PathsAscend(m: SourceManifest, i: nat, j: nat)
    requires WellFormed(m) && i < j < |m.entries|
    ensures Less(m.entries[i].path, m.entries[j].path)
    decreases j - i
  {
    hide EntryOk, Total, Less;
    assert Follows(m.entries[j - 1].path, m.entries[j].path);
    if i < j - 1 {
      PathsAscend(m, i, j - 1);
      LessTransitive(m.entries[i].path, m.entries[j - 1].path, m.entries[j].path);
    }
  }
}
