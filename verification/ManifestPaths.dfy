/**
 Where a manifest path leads, followed character by character from a directory, and
 the paths the parser accepts told from that walk alone.
 */
module ManifestPaths {
  import opened Words
  import opened Text
  import opened Manifest

  /** The ASCII codes of letters, digits, dash, dot, slash and underscore. */
  predicate Allowed(code: int) {
    65 <= code <= 90 || 97 <= code <= 122 || 48 <= code <= 57 || code == 45 || code == 46 || code == 47 || code == 95
  }

  /** One name of a path: two dots climb, one dot or nothing stays, anything else descends. Below `floor` is nowhere. */
  function Enter(stack: seq<string>, floor: nat, name: string): Option<seq<string>> {
    if name == ".." then if |stack| <= floor then None else Some(stack[..|stack| - 1])
    else if name == "." || name == "" then Some(stack)
    else Some(stack + [name])
  }

  /** Follow `rest`, the name read so far being `name`. */
  function Walk(stack: seq<string>, floor: nat, name: string, rest: string): Option<seq<string>>
    decreases |rest|
  {
    if rest == "" then Enter(stack, floor, name)
    else if rest[0] != '/' then Walk(stack, floor, name + [rest[0]], rest[1..])
    else
      match Enter(stack, floor, name)
      case None => None
      case Some(there) => Walk(there, floor, "", rest[1..])
  }

  /** Where `path` leads from the directory `base`, if it never climbs out of it. */
  function Leads(base: seq<string>, path: string): Option<seq<string>> {
    Walk(base, |base|, "", path)
  }

  function Slashes(path: string): nat {
    if path == "" then 0 else (if path[0] == '/' then 1 else 0) + Slashes(path[1..])
  }

  // The walk over names ----------------------------------------------------------------------------

  function EnterAll(stack: seq<string>, floor: nat, names: seq<string>): Option<seq<string>>
    decreases |names|
  {
    if names == [] then Some(stack)
    else
      match Enter(stack, floor, names[0])
      case None => None
      case Some(there) => EnterAll(there, floor, names[1..])
  }

  lemma {:induction false} SplitHead(name: string, rest: string)
    requires Lacks(name, '/')
    ensures Split(name, '/') == [name]
    ensures Split(name + ['/'] + rest, '/') == [name] + Split(rest, '/')
  {
    IndexIsFirst(name, '/', rest);
    var s := name + ['/'] + rest;
    assert s[..|name|] == name && s[|name| + 1..] == rest;
  }

  lemma {:induction false} WalkNames(stack: seq<string>, floor: nat, name: string, rest: string)
    requires Lacks(name, '/')
    ensures Walk(stack, floor, name, rest) == EnterAll(stack, floor, Split(name + rest, '/'))
    decreases |rest|
  {
    hide Split, Enter;
    if rest == "" {
      assert name + rest == name;
      SplitHead(name, "");
      assert EnterAll(stack, floor, [name]) == Enter(stack, floor, name);
    } else if rest[0] != '/' {
      assert name + rest == name + [rest[0]] + rest[1..];
      WalkNames(stack, floor, name + [rest[0]], rest[1..]);
    } else {
      assert name + rest == name + ['/'] + rest[1..];
      SplitHead(name, rest[1..]);
      var names := [name] + Split(rest[1..], '/');
      assert names[0] == name && names[1..] == Split(rest[1..], '/');
      if Enter(stack, floor, name).Some? {
        var there := Enter(stack, floor, name).value;
        WalkNames(there, floor, "", rest[1..]);
        assert "" + rest[1..] == rest[1..];
      }
    }
  }

  /** A walk gains a level for every name exactly when every name descends. */
  lemma {:induction false} EnterAllDepth(stack: seq<string>, floor: nat, names: seq<string>)
    ensures var r := EnterAll(stack, floor, names);
            && (r.Some? ==> |r.value| <= |stack| + |names|)
            && (r.Some? && |r.value| == |stack| + |names| <==>
                  forall k :: 0 <= k < |names| ==> names[k] != "" && names[k] != "." && names[k] != "..")
            && ((forall k :: 0 <= k < |names| ==> names[k] != "" && names[k] != "." && names[k] != "..") ==>
                  r == Some(stack + names))
    decreases |names|
  {
    if names == [] {
      assert stack + names == stack;
    } else if Enter(stack, floor, names[0]).Some? {
      var there := Enter(stack, floor, names[0]).value;
      EnterAllDepth(there, floor, names[1..]);
      assert names == [names[0]] + names[1..];
      if there == stack + [names[0]] { assert there + names[1..] == stack + names; }
    }
  }

  lemma {:induction false} SlashesSplit(path: string)
    ensures |Split(path, '/')| == Slashes(path) + 1
    decreases |path|
  {
    hide Split;
    var i := IndexOf(path, '/');
    if i == |path| {
      SplitHead(path, "");
      NoSlash(path);
    } else {
      assert path == path[..i] + ['/'] + path[i + 1..];
      SplitHead(path[..i], path[i + 1..]);
      SlashesSplit(path[i + 1..]);
      NoSlash(path[..i]);
      SlashesAdd(path[..i], ['/'] + path[i + 1..]);
      assert path == path[..i] + (['/'] + path[i + 1..]);
      assert (['/'] + path[i + 1..])[1..] == path[i + 1..];
    }
  }

  lemma {:induction false} NoSlash(s: string)
    requires Lacks(s, '/')
    ensures Slashes(s) == 0
  {
    if s != "" { NoSlash(s[1..]); }
  }

  lemma {:induction false} SlashesAdd(a: string, b: string)
    ensures Slashes(a + b) == Slashes(a) + Slashes(b)
    decreases |a|
  {
    if a == "" {
      assert a + b == b;
    } else {
      assert (a + b)[1..] == a[1..] + b;
      SlashesAdd(a[1..], b);
    }
  }

  // Characters -------------------------------------------------------------------------------------

  predicate Spelled(path: string) {
    forall k :: 0 <= k < |path| ==> Allowed(path[k] as int)
  }

  lemma SpelledIs(path: string)
    ensures Spelled(path) <==> forall k :: 0 <= k < |path| ==> PathChar(path[k])
    ensures Spelled(path) ==> '\\' !in path
  {
    forall k | 0 <= k < |path| ensures Allowed(path[k] as int) <==> PathChar(path[k]) {
    }
  }

  /** With no empty name, a path is not empty, does not begin or end with a slash, and has no two in a row. */
  lemma {:induction false} NoEmptyName(path: string)
    requires forall k :: 0 <= k < |Split(path, '/')| ==> Split(path, '/')[k] != ""
    ensures path != "" && path[0] != '/' && path[|path| - 1] != '/'
    ensures forall k :: 0 <= k < |path| - 1 ==> !(path[k] == '/' && path[k + 1] == '/')
    decreases |path|
  {
    hide Split, IndexOf;
    var i := IndexOf(path, '/');
    if i == |path| {
      SplitHead(path, "");
      assert Split(path, '/')[0] == path;
    } else {
      var rest := path[i + 1..];
      assert path == path[..i] + ['/'] + rest;
      SplitHead(path[..i], rest);
      var names := Split(path, '/');
      assert names[0] == path[..i];
      forall k | 0 <= k < |Split(rest, '/')| ensures Split(rest, '/')[k] != "" {
        assert names[k + 1] == Split(rest, '/')[k];
      }
      NoEmptyName(rest);
      forall k | 0 <= k < |path| - 1 ensures !(path[k] == '/' && path[k + 1] == '/') {
        if k > i { assert path[k] == rest[k - i - 1] && path[k + 1] == rest[k - i]; }
      }
    }
  }

  // Acceptance -------------------------------------------------------------------------------------

  /** What an accepted path is, told from its characters and where it leads. */
  predicate Descends(path: string) {
    && 1 <= |path| <= 128 && Spelled(path)
    && Leads([], path).Some? && |Leads([], path).value| == Slashes(path) + 1
  }

  lemma {:induction false} LeadsNames(base: seq<string>, path: string)
    ensures Leads(base, path) == EnterAll(base, |base|, Split(path, '/'))
  {
    hide Walk, EnterAll, Split;
    WalkNames(base, |base|, "", path);
    assert "" + path == path;
  }

  /** The parser's check of a path is: allowed characters, and every name one level further down. */
  lemma PathExactly(path: string)
    ensures ValidPath(path) <==> Descends(path)
  {
    hide Split, EnterAll, Leads, Spelled, Slashes;
    LeadsNames([], path);
    EnterAllDepth([], 0, Split(path, '/'));
    SlashesSplit(path);
    SpelledIs(path);
    var names := Split(path, '/');
    if forall k :: 0 <= k < |names| ==> names[k] != "" && names[k] != "." && names[k] != ".." {
      NoEmptyName(path);
    }
    if ValidPath(path) {
      forall k | 0 <= k < |names| ensures names[k] != "" && names[k] != "." && names[k] != ".." {
        assert names[k] in names;
      }
    }
  }

  /** From any directory an accepted path stays inside it and ends at the directory extended by its own names. */
  lemma StaysInside(base: seq<string>, path: string)
    requires Descends(path)
    ensures Leads([], path).value != [] && Join(Leads([], path).value, '/') == path
    ensures Leads(base, path) == Some(base + Leads([], path).value)
  {
    hide Split, EnterAll, Leads, Spelled, Slashes, Join;
    LeadsNames([], path);
    LeadsNames(base, path);
    SlashesSplit(path);
    EnterAllDepth([], 0, Split(path, '/'));
    EnterAllDepth(base, |base|, Split(path, '/'));
    JoinSplit(path, '/');
    assert [] + Split(path, '/') == Split(path, '/');
  }

  /** So it is for every path of every manifest the parser accepts. */
  lemma AcceptedPathsStayInside(bytes: string, m: SourceManifest, base: seq<string>, path: string)
    requires Parse(bytes) == Ok(m)
    requires path == m.treePath || exists k :: 0 <= k < |m.entries| && path == m.entries[k].path
    ensures Descends(path)
    ensures Join(Leads([], path).value, '/') == path && Leads(base, path) == Some(base + Leads([], path).value)
  {
    hide Parse, Print, Leads, ValidPath, Descends, Join;
    ParseExact(bytes, m);
    if k :| 0 <= k < |m.entries| && path == m.entries[k].path {
      assert EntryOk(m.entries[k]);
    }
    PathExactly(path);
    StaysInside(base, path);
  }

  lemma {:induction false} SplitConcat(a: string, b: string)
    ensures Split(a + ['/'] + b, '/') == Split(a, '/') + Split(b, '/')
    decreases |a|
  {
    hide Split;
    var i := IndexOf(a, '/');
    if i == |a| {
      SplitHead(a, b);
    } else {
      var rest := a[i + 1..];
      assert a == a[..i] + ['/'] + rest;
      SplitHead(a[..i], rest);
      SplitHead(a[..i], rest + ['/'] + b);
      assert a + ['/'] + b == a[..i] + ['/'] + (rest + ['/'] + b);
      SplitConcat(rest, b);
    }
  }

  /** A path that climbs, stays or names nothing anywhere is refused. */
  lemma ClimbingRefused(before: string, name: string, after: string)
    requires name == ".." || name == "." || name == ""
    ensures !ValidPath(before + ['/'] + name + ['/'] + after)
    ensures !ValidPath(name + ['/'] + after) && !ValidPath(before + ['/'] + name)
  {
    hide Split;
    SplitConcat(before + ['/'] + name, after);
    SplitConcat(before, name);
    SplitConcat(name, after);
    SplitHead(name, "");
    assert name in Split(name, '/');
    NameRefused(before + ['/'] + name + ['/'] + after, name);
    NameRefused(name + ['/'] + after, name);
    NameRefused(before + ['/'] + name, name);
  }

  lemma {:induction false} NameRefused(path: string, name: string)
    requires name in Split(path, '/') && (name == ".." || name == "." || name == "")
    ensures !ValidPath(path)
  {
    hide Split;
    assert !PlainPart(name);
  }
}
