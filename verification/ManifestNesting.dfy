/**
 Paths inside other paths. The parser compares each path with its predecessor only, so a manifest can
 list a file and, further on, a path that runs through it. These are exactly the manifests that do.
 */
module ManifestNesting {
  import opened Words
  import opened Text
  import opened Manifest

  /** `path` runs through `outer` as a directory. */
  predicate Inside(outer: string, path: string) {
    outer + "/" <= path
  }

  /** `path` goes on after `prior` with a character that sorts before the separator: a dash or a dot. */
  predicate Sidesteps(prior: string, path: string) {
    prior < path && path[|prior|] < '/'
  }

  predicate Nested(m: SourceManifest) {
    exists i, j :: 0 <= i < j < |m.entries| && Inside(m.entries[i].path, m.entries[j].path)
  }

  /** The first entry from `from` on that does not sidestep `prior`, or the end. */
  function FirstBeyond(entries: seq<SourceEntry>, prior: string, from: nat): (k: nat)
    requires from <= |entries|
    ensures from <= k <= |entries| && (k < |entries| ==> !Sidesteps(prior, entries[k].path))
    ensures forall n :: from <= n < k ==> Sidesteps(prior, entries[n].path)
    decreases |entries| - from
  {
    if from == |entries| || !Sidesteps(prior, entries[from].path) then from else FirstBeyond(entries, prior, from + 1)
  }

  /** What sorts between a path and something inside it is inside it too, or sidesteps it. */
  lemma {:induction false} Between(a: string, b: string, c: string)
    requires Less(a, b) && Less(b, c) && Inside(a, c)
    ensures Inside(a, b) || Sidesteps(a, b)
    decreases |a|
  {
    if a == "" {
      assert c[0] == '/';
    } else {
      assert (a + "/")[0] == c[0] && (a + "/")[1..] == a[1..] + "/";
      Between(a[1..], b[1..], c[1..]);
      Lengthened(a, b);
    }
  }

  lemma Lengthened(a: string, b: string)
    requires a != "" && b != "" && a[0] == b[0]
    ensures Inside(a[1..], b[1..]) ==> Inside(a, b)
    ensures Sidesteps(a[1..], b[1..]) ==> Sidesteps(a, b)
  {
    assert a == [a[0]] + a[1..] && b == [b[0]] + b[1..];
    if Inside(a[1..], b[1..]) {
      assert a + "/" == [a[0]] + (a[1..] + "/");
    }
  }

  /** The parser's check on neighbours catches a nested path exactly when it comes first after all sidesteps. */
  lemma NestingExactly(m: SourceManifest, i: nat)
    requires WellFormed(m) && i < |m.entries|
    ensures var outer := m.entries[i].path;
            var k := FirstBeyond(m.entries, outer, i + 1);
            (exists j :: i < j < |m.entries| && Inside(outer, m.entries[j].path))
            <==> k < |m.entries| && Inside(outer, m.entries[k].path)
  {
    hide Inside, Sidesteps, Less, WellFormed;
    var outer := m.entries[i].path;
    var k := FirstBeyond(m.entries, outer, i + 1);
    if exists j :: i < j < |m.entries| && Inside(outer, m.entries[j].path) {
      var j :| i < j < |m.entries| && Inside(outer, m.entries[j].path);
      InsideNotBeside(outer, m.entries[j].path);
      assert k <= j;
      if k < j {
        PathsAscend(m, i, k);
        PathsAscend(m, k, j);
        Between(outer, m.entries[k].path, m.entries[j].path);
      }
    }
  }

  /** The first path past all sidesteps of entry `i` lies inside it. */
  predicate NestsAt(m: SourceManifest, i: nat)
    requires i < |m.entries|
  {
    var k := FirstBeyond(m.entries, m.entries[i].path, i + 1);
    k < |m.entries| && Inside(m.entries[i].path, m.entries[k].path)
  }

  /** One look ahead per entry decides whether anything is nested. */
  lemma NestedExactly(m: SourceManifest)
    requires WellFormed(m)
    ensures Nested(m) <==> exists i: nat :: i < |m.entries| && NestsAt(m, i)
  {
    hide WellFormed, Inside, FirstBeyond;
    if Nested(m) {
      var i, j :| 0 <= i < j < |m.entries| && Inside(m.entries[i].path, m.entries[j].path);
      NestingExactly(m, i);
      assert NestsAt(m, i);
    }
    if i: nat :| i < |m.entries| && NestsAt(m, i) {
      NestingExactly(m, i);
    }
  }

  lemma InsideNotBeside(outer: string, path: string)
    requires Inside(outer, path)
    ensures !Sidesteps(outer, path)
  {
    assert (outer + "/")[|outer|] == path[|outer|];
  }

  /** A nested path is never next to its outer one, and the path next to it sidesteps it. */
  lemma NestedIsFar(m: SourceManifest, i: nat, j: nat)
    requires WellFormed(m) && i < j < |m.entries| && Inside(m.entries[i].path, m.entries[j].path)
    ensures j > i + 1 && Sidesteps(m.entries[i].path, m.entries[i + 1].path)
    ensures var c := m.entries[i + 1].path[|m.entries[i].path|]; c == '-' || c == '.'
  {
    hide Less, EntryOk, Total;
    var outer, next := m.entries[i].path, m.entries[i + 1].path;
    assert Follows(outer, next);
    PathsAscend(m, i, i + 1);
    if j > i + 1 {
      PathsAscend(m, i + 1, j);
      Between(outer, next, m.entries[j].path);
    }
    NextPathChars(m, i + 1);
  }

  lemma NextPathChars(m: SourceManifest, i: nat)
    requires WellFormed(m) && i < |m.entries|
    ensures forall k :: 0 <= k < |m.entries[i].path| ==> PathChar(m.entries[i].path[k])
  {
    hide Total, Ascending;
    assert EntryOk(m.entries[i]);
  }

  /** So a manifest in which no path is directly followed by one that sidesteps it has no nesting at all. */
  lemma NoSidestepNoNesting(m: SourceManifest)
    requires WellFormed(m)
    requires forall i :: 0 <= i < |m.entries| - 1 ==> !Sidesteps(m.entries[i].path, m.entries[i + 1].path)
    ensures !Nested(m)
  {
    hide WellFormed, Inside, Sidesteps;
    if Nested(m) {
      var i, j :| 0 <= i < j < |m.entries| && Inside(m.entries[i].path, m.entries[j].path);
      NestedIsFar(m, i, j);
    }
  }

  // A manifest that nests ----------------------------------------------------------------------------------

  function Zeros(n: nat): (bytes: seq<Byte>)
    ensures |bytes| == n
  {
    seq(n, _ => 0)
  }

  function Plain(path: string): SourceEntry {
    SourceEntry(MODE_PLAIN, 0, Zeros(32), path)
  }

  function NestingManifest(): SourceManifest {
    SourceManifest("a", Zeros(20), [Plain("a"), Plain("a-b"), Plain("a/b")])
  }

  lemma SmallPaths()
    ensures ValidPath("a") && ValidPath("a-b") && ValidPath("a/b")
  {
    assert Split("a", '/') == ["a"] by { assert IndexOf("a", '/') == 1; }
    assert Split("a-b", '/') == ["a-b"] by { assert IndexOf("a-b", '/') == 3; }
    assert Split("a/b", '/') == ["a", "b"] by {
      assert IndexOf("a/b", '/') == 1;
      assert "a/b"[..1] == "a" && "a/b"[2..] == "b";
      assert IndexOf("b", '/') == 1;
    }
  }

  lemma SmallOrder()
    ensures Follows("a", "a-b") && Follows("a-b", "a/b")
  {
    assert "a-b"[1..] == "-b" && "a/b"[1..] == "/b" && "a"[1..] == "";
    assert !("a" + "/" <= "a-b") by { assert ("a" + "/")[1] == '/'; }
    assert !("a-b" + "/" <= "a/b") by { assert |"a-b" + "/"| == 4; }
  }

  lemma NestingIsWellFormed()
    ensures WellFormed(NestingManifest()) && Nested(NestingManifest())
  {
    hide ValidPath, Follows;
    var m := NestingManifest();
    SmallPaths();
    SmallOrder();
    var e := m.entries;
    assert Total(e) == 0 by { assert e[1..][1..][1..] == []; }
    assert "a" + "/" <= "a/b" by { assert "a/b" == "a" + "/" + "b"; }
    assert Inside(e[0].path, e[2].path);
  }

  lemma {:induction false} JoinBounded(parts: seq<string>, c: char, n: nat)
    requires |parts| > 0 && forall k :: 0 <= k < |parts| ==> |parts[k]| <= n
    ensures |Join(parts, c)| < |parts| * (n + 1)
    decreases |parts|
  {
    if |parts| > 1 {
      JoinBounded(parts[1..], c, n);
      assert |parts| * (n + 1) == (n + 1) + (|parts| - 1) * (n + 1);
    }
  }

  lemma NestingFits()
    ensures |Print(NestingManifest())| <= MAX_SOURCE_MANIFEST_BYTES
  {
    var m := NestingManifest();
    var lines := PrintLines(m);
    PrintedDecimal(0);
    PrintedDecimal(3);
    forall k | 0 <= k < |m.entries| ensures |EntryLine(m.entries[k])| <= 90 {
      assert |m.entries[k].path| <= 3;
    }
    forall k | 0 <= k < |lines| ensures |lines[k]| <= 100 {
      if k >= 5 { assert lines[k] == EntryLines(m.entries)[k - 5]; }
    }
    JoinBounded(lines, '\n', 100);
  }

  /** The parser accepts a manifest in which one path lies inside another. */
  lemma ParserAcceptsNesting()
    ensures var m := NestingManifest();
            Nested(m) && Parse(Print(m)) == Ok(m)
  {
    hide Parse, Print, WellFormed, NestingManifest, Nested;
    NestingIsWellFormed();
    NestingFits();
    ParseExact(Print(NestingManifest()), NestingManifest());
  }
}
