/**
 The manifest format said once more from the outside: the text a manifest has, written
 with numerals, and what it must satisfy, in plain numbers.
 */
module ManifestMeaning {
  import opened Words
  import opened Text
  import opened Manifest
  import opened ManifestPaths

  // Numerals ---------------------------------------------------------------------------------------

  const DIGITS: string := "0123456789abcdef"

  function Numeral(n: nat, base: nat): (s: string)
    requires 2 <= base <= 16
    ensures s != ""
  {
    if n < base then [DIGITS[n]] else Numeral(n / base, base) + [DIGITS[n % base]]
  }

  function Pairs(bytes: seq<Byte>): string {
    if bytes == [] then "" else [DIGITS[bytes[0] / 16], DIGITS[bytes[0] % 16]] + Pairs(bytes[1..])
  }

  lemma DigitIs(n: nat)
    requires n < 16
    ensures DIGITS[n] == HexOf(n)
    ensures n < 10 ==> DIGITS[n] == DigitOf(n)
  {
  }

  lemma {:induction false} DecimalIs(n: nat)
    ensures PrintDecimal(n) == Numeral(n, 10)
  {
    hide DigitOf;
    if n < 10 {
      DigitIs(n);
    } else {
      DecimalIs(n / 10);
      DigitIs(n % 10);
    }
  }

  lemma {:induction false} HexIs(bytes: seq<Byte>)
    ensures EncodeHex(bytes) == Pairs(bytes)
    decreases |bytes|
  {
    hide HexOf;
    if bytes != [] {
      HexIs(bytes[1..]);
      EncodedHead(bytes);
      DigitIs(bytes[0] / 16);
      DigitIs(bytes[0] % 16);
    }
  }

  lemma {:induction false} EncodedHead(bytes: seq<Byte>)
    requires bytes != []
    ensures EncodeHex(bytes) == [HexOf(bytes[0] / 16), HexOf(bytes[0] % 16)] + EncodeHex(bytes[1..])
  {
    hide HexOf;
    var s, t := EncodeHex(bytes), [HexOf(bytes[0] / 16), HexOf(bytes[0] % 16)] + EncodeHex(bytes[1..]);
    hide EncodeHex;
    forall k | 0 <= k < |s| ensures s[k] == t[k] {
      var i := k / 2;
      assert k == 2 * i || k == 2 * i + 1;
      if i > 0 {
        assert bytes[1..][i - 1] == bytes[i];
        assert t[2 * i] == EncodeHex(bytes[1..])[2 * (i - 1)];
        assert t[2 * i + 1] == EncodeHex(bytes[1..])[2 * (i - 1) + 1];
      }
    }
  }

  lemma {:induction false} ModeIs(mode: nat)
    requires mode == 33188 || mode == 33261
    ensures PrintMode(mode) == Numeral(mode, 8)
  {
    hide Numeral;
    OctalOne();
    OctalOf(1, "1", 0);
    OctalOf(8, "10", 0);
    if mode == 33188 {
      OctalOf(64, "100", 6);
      OctalOf(518, "1006", 4);
      OctalOf(4148, "10064", 4);
    } else {
      OctalOf(64, "100", 7);
      OctalOf(519, "1007", 5);
      OctalOf(4157, "10075", 5);
    }
  }

  lemma OctalOne()
    ensures Numeral(1, 8) == "1"
  {
  }

  lemma OctalOf(n: nat, s: string, digit: nat)
    requires 1 <= n && digit < 8
    ensures Numeral(n, 8) == s ==> Numeral(8 * n + digit, 8) == s + [DIGITS[digit]]
  {
    assert (8 * n + digit) / 8 == n && (8 * n + digit) % 8 == digit;
  }

  // Order ------------------------------------------------------------------------------------------

  /** They agree up to `k`, and there `a` ends or has the smaller character. */
  predicate Parts(a: string, b: string, k: nat) {
    && k <= |a| && k < |b| && a[..k] == b[..k]
    && (k == |a| || a[k] < b[k])
  }

  lemma {:induction false} LessMeans(a: string, b: string)
    ensures Less(a, b) <==> exists k: nat :: Parts(a, b, k)
    decreases |a|
  {
    if b != "" && a == "" {
      assert Parts(a, b, 0);
    } else if b != "" && a[0] != b[0] {
      if a[0] < b[0] { assert Parts(a, b, 0); }
      forall k: nat | Parts(a, b, k) ensures a[0] < b[0] {
        if k > 0 { assert a[..k][0] == b[..k][0]; }
      }
    } else if b != "" {
      LessMeans(a[1..], b[1..]);
      if k: nat :| Parts(a[1..], b[1..], k) {
        assert a[..k + 1] == [a[0]] + a[1..][..k] && b[..k + 1] == [b[0]] + b[1..][..k];
        assert Parts(a, b, k + 1);
      }
      if k: nat :| Parts(a, b, k) {
        assert k > 0;
        assert a[1..][..k - 1] == a[..k][1..] && b[1..][..k - 1] == b[..k][1..];
        assert Parts(a[1..], b[1..], k - 1);
      }
    }
  }

  // The text ---------------------------------------------------------------------------------------

  function EntryText(e: SourceEntry): string {
    Numeral(e.mode, 8) + " " + Numeral(e.length, 10) + " " + Pairs(e.sha256) + " " + e.path + "\n"
  }

  function EntriesText(entries: seq<SourceEntry>): string {
    if entries == [] then "" else EntryText(entries[0]) + EntriesText(entries[1..])
  }

  function ManifestText(m: SourceManifest): string {
    "schema=makopa-source-manifest-v1\n" + ("repository=git+https:" + "//github.com/xsparc/MakopaOS\n")
    + ("tree-path=" + m.treePath + "\n") + ("git-tree-sha1=" + Pairs(m.gitTreeSha1) + "\n")
    + ("file-count=" + Numeral(|m.entries|, 10) + "\n") + EntriesText(m.entries)
  }

  /** Lines, each with its end. */
  function Ended(lines: seq<string>): string {
    if lines == [] then "" else lines[0] + "\n" + Ended(lines[1..])
  }

  lemma {:induction false} JoinEnds(lines: seq<string>)
    requires lines != []
    ensures Join(lines, '\n') + "\n" == Ended(lines)
    decreases |lines|
  {
    if |lines| > 1 {
      JoinEnds(lines[1..]);
    } else {
      assert lines[1..] == [];
      assert Ended(lines) == lines[0] + "\n" + "";
    }
  }

  lemma {:induction false} EndedConcat(a: seq<string>, b: seq<string>)
    ensures Ended(a + b) == Ended(a) + Ended(b)
    decreases |a|
  {
    if a == [] {
      assert a + b == b;
    } else {
      assert (a + b)[1..] == a[1..] + b;
      EndedConcat(a[1..], b);
    }
  }

  lemma LineIs(e: SourceEntry)
    requires e.mode == 33188 || e.mode == 33261
    ensures EntryLine(e) + "\n" == EntryText(e)
  {
    hide PrintMode, PrintDecimal, EncodeHex, Numeral, Pairs;
    ModeIs(e.mode);
    DecimalIs(e.length);
    HexIs(e.sha256);
  }

  lemma {:induction false} LinesAre(entries: seq<SourceEntry>)
    requires forall k :: 0 <= k < |entries| ==> entries[k].mode == 33188 || entries[k].mode == 33261
    ensures Ended(EntryLines(entries)) == EntriesText(entries)
    decreases |entries|
  {
    hide EntryLine, EntryText;
    if entries != [] {
      LineIs(entries[0]);
      LinesAre(entries[1..]);
      assert EntryLines(entries)[1..] == EntryLines(entries[1..]);
    }
  }

  lemma HeaderIs(m: SourceManifest)
    ensures Ended(HeaderLines(m))
         == "schema=makopa-source-manifest-v1\n" + ("repository=git+https:" + "//github.com/xsparc/MakopaOS\n")
            + ("tree-path=" + m.treePath + "\n") + ("git-tree-sha1=" + Pairs(m.gitTreeSha1) + "\n")
            + ("file-count=" + Numeral(|m.entries|, 10) + "\n")
  {
    hide EncodeHex, PrintDecimal, Numeral, Pairs;
    HexIs(m.gitTreeSha1);
    DecimalIs(|m.entries|);
    var a, b, c, d, e := SCHEMA, REPOSITORY, "tree-path=" + m.treePath, "git-tree-sha1=" + EncodeHex(m.gitTreeSha1),
                         "file-count=" + PrintDecimal(|m.entries|);
    FiveEnded(a, b, c, d, e);
    assert SCHEMA + "\n" == "schema=makopa-source-manifest-v1\n";
    assert REPOSITORY + "\n" == "repository=git+https:" + "//github.com/xsparc/MakopaOS\n";
  }

  lemma FiveEnded(a: string, b: string, c: string, d: string, e: string)
    ensures Ended([a, b, c, d, e]) == (a + "\n") + (b + "\n") + (c + "\n") + (d + "\n") + (e + "\n")
  {
    hide Ended;
    assert [a, b, c, d, e] == [a] + ([b] + ([c] + ([d] + ([e] + []))));
    EndedOne(a, [b] + ([c] + ([d] + ([e] + []))));
    EndedOne(b, [c] + ([d] + ([e] + [])));
    EndedOne(c, [d] + ([e] + []));
    EndedOne(d, [e] + []);
    EndedOne(e, []);
  }

  lemma {:induction false} EndedOne(a: string, rest: seq<string>)
    ensures Ended([a] + rest) == a + "\n" + Ended(rest)
    ensures rest == [] ==> Ended(rest) == ""
  {
    assert ([a] + rest)[1..] == rest;
  }

  lemma PrintIsText(m: SourceManifest)
    requires forall k :: 0 <= k < |m.entries| ==> m.entries[k].mode == 33188 || m.entries[k].mode == 33261
    ensures Print(m) == ManifestText(m)
  {
    hide HeaderLines, EntryLines, Ended, Join, EntriesText, Numeral, Pairs;
    PrintNonempty(m);
    JoinEnds(PrintLines(m));
    EndedConcat(HeaderLines(m), EntryLines(m.entries));
    HeaderIs(m);
    LinesAre(m.entries);
  }

  // The format -------------------------------------------------------------------------------------

  function Sum(entries: seq<SourceEntry>): nat {
    if entries == [] then 0 else Sum(entries[..|entries| - 1]) + entries[|entries| - 1].length
  }

  lemma {:induction false} SumIs(entries: seq<SourceEntry>)
    ensures Total(entries) == Sum(entries)
    decreases |entries|
  {
    if entries != [] {
      TotalLast(entries);
      SumIs(entries[..|entries| - 1]);
    }
  }

  lemma {:induction false} TotalLast(entries: seq<SourceEntry>)
    requires entries != []
    ensures Total(entries) == Total(entries[..|entries| - 1]) + entries[|entries| - 1].length
    decreases |entries|
  {
    if |entries| > 1 {
      TotalLast(entries[1..]);
      assert entries[1..][..|entries| - 2] == entries[..|entries| - 1][1..];
    }
  }

  predicate SoundEntry(e: SourceEntry) {
    (e.mode == 33188 || e.mode == 33261) && e.length <= 262144 && |e.sha256| == 32 && Descends(e.path)
  }

  /** The later path is larger in byte order and does not lie directly inside the earlier one. */
  ghost predicate After(earlier: string, later: string) {
    (exists k: nat :: Parts(earlier, later, k))
      && !(|earlier| < |later| && later[..|earlier|] == earlier && later[|earlier|] == '/')
  }

  ghost predicate Sound(m: SourceManifest) {
    && Descends(m.treePath) && |m.gitTreeSha1| == 20
    && 1 <= |m.entries| <= 256 && Sum(m.entries) <= 1048576
    && (forall k :: 0 <= k < |m.entries| ==> SoundEntry(m.entries[k]))
    && forall k :: 0 <= k < |m.entries| - 1 ==> After(m.entries[k].path, m.entries[k + 1].path)
  }

  lemma AfterIs(a: string, b: string)
    ensures After(a, b) <==> Follows(a, b)
  {
    hide Parts, Less;
    LessMeans(a, b);
    assert a + "/" <= b <==> |a| < |b| && b[..|a|] == a && b[|a|] == '/' by {
      if a + "/" <= b {
        assert b[|a|] == (a + "/")[|a|] && b[..|a|] == (a + "/")[..|a|];
      }
      if |a| < |b| && b[..|a|] == a && b[|a|] == '/' {
        assert b[..|a| + 1] == a + "/";
      }
    }
  }

  lemma SoundIs(m: SourceManifest)
    ensures Sound(m) <==> WellFormed(m)
  {
    hide Descends, ValidPath, After, Follows, Sum, Total;
    PathExactly(m.treePath);
    SumIs(m.entries);
    forall k | 0 <= k < |m.entries| ensures SoundEntry(m.entries[k]) <==> EntryOk(m.entries[k]) {
      PathExactly(m.entries[k].path);
    }
    forall k | 0 <= k < |m.entries| - 1
      ensures After(m.entries[k].path, m.entries[k + 1].path) <==> Follows(m.entries[k].path, m.entries[k + 1].path)
    {
      AfterIs(m.entries[k].path, m.entries[k + 1].path);
    }
  }

  /** Bytes are read as a manifest exactly when it is sound and they are its text, within 65536 of them. */
  lemma ManifestExactly(bytes: string, m: SourceManifest)
    ensures Parse(bytes) == Ok(m) <==> Sound(m) && bytes == ManifestText(m) && |bytes| <= 65536
  {
    hide Parse, Print, ManifestText, Sound, WellFormed;
    ParseExact(bytes, m);
    SoundIs(m);
    if Sound(m) {
      SoundModes(m);
      PrintIsText(m);
    }
  }

  lemma SoundModes(m: SourceManifest)
    requires Sound(m)
    ensures forall k :: 0 <= k < |m.entries| ==> m.entries[k].mode == 33188 || m.entries[k].mode == 33261
  {
    hide Descends, After, Sum;
    forall k | 0 <= k < |m.entries| ensures m.entries[k].mode == 33188 || m.entries[k].mode == 33261 {
      assert SoundEntry(m.entries[k]);
    }
  }
}
