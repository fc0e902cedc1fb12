/**
 * Path helpers of the storage layer: normalising a path into an object
 * key, reading the name elements of a path the way `java.nio.file.Path`
 * does, enumerating the ancestor directories of a key, validating a
 * request path and building the breadcrumb shown for a resource.
 */
module PathUtils {
  import opened Strings
  import opened Errors

  // ---------------------------------------------------------------------
  // Key normalisation
  // ---------------------------------------------------------------------

  /** `path.startsWith("/")`. */
  predicate LeadingSlash(path: string) {
    |path| > 0 && path[0] == '/'
  }

  /**
   * `normalizePathMinioCompatible`: drop one leading '/', strip
   * surrounding whitespace, turn spaces into '+' and make one pass that
   * rewrites "//" into "/".
   */
  function Normalize(path: string): string {
    var p := if LeadingSlash(path) then path[1..] else path;
    CollapseSlashes(ReplaceChar(Strip(p), ' ', '+'))
  }

  /**
   * Normalising is not idempotent ("//x" becomes "/x", then "x"); a path
   * is settled when its normal form normalises to itself, so that the key
   * the store reports for it names the same object when passed back.
   */
  predicate Settled(path: string) {
    Normalize(Normalize(path)) == Normalize(path)
  }

  lemma {:induction false} CollapseSlashesKeepsOut(s: string, c: char)
    requires c !in s
    ensures c !in CollapseSlashes(s)
  {
    if |s| >= 2 && s[0] == '/' && s[1] == '/' {
      CollapseSlashesKeepsOut(s[2..], c);
    } else if |s| > 0 {
      CollapseSlashesKeepsOut(s[1..], c);
    }
  }

  lemma {:induction false} CollapseSlashesIdentity(s: string)
    requires !HasDoubleSlash(s)
    ensures CollapseSlashes(s) == s
  {
    if |s| > 0 {
      assert !HasDoubleSlash(s[1..]) by {
        forall i | 0 <= i < |s[1..]| - 1 ensures !(s[1..][i] == '/' && s[1..][i + 1] == '/') {
          assert s[1..][i] == s[i + 1] && s[1..][i + 1] == s[i + 2];
        }
      }
      CollapseSlashesIdentity(s[1..]);
      assert s == [s[0]] + s[1..];
    }
  }

  lemma ReplaceAbsent(s: string, from: char, to: char)
    requires from !in s
    ensures ReplaceChar(s, from, to) == s
  {
    var r := ReplaceChar(s, from, to);
    assert forall i :: 0 <= i < |s| ==> r[i] == s[i];
  }

  /** Every space of the path becomes '+': a normalised key holds no space. */
  lemma NormalizeHasNoSpace(path: string)
    ensures ' ' !in Normalize(path)
  {
    var p := if LeadingSlash(path) then path[1..] else path;
    var q := ReplaceChar(Strip(p), ' ', '+');
    assert forall i :: 0 <= i < |q| ==> q[i] != ' ';
    CollapseSlashesKeepsOut(q, ' ');
  }

  /** A key that is already clean is its own normal form. */
  lemma NormalizeIdentity(path: string)
    requires !LeadingSlash(path)
    requires path == "" || (!IsWhitespace(path[0]) && !IsWhitespace(path[|path| - 1]))
    requires ' ' !in path && !HasDoubleSlash(path)
    ensures Normalize(path) == path
  {
    assert Strip(path) == path;
    ReplaceAbsent(path, ' ', '+');
    CollapseSlashesIdentity(path);
  }

  /** Exactly one leading '/' is ignored. */
  lemma NormalizeDropsOneSlash(path: string)
    requires !LeadingSlash(path)
    ensures Normalize("/" + path) == Normalize(path)
  {
    assert ("/" + path)[..1] == "/";
    assert ("/" + path)[1..] == path;
  }

  /** The documented example "/path" gives "path". */
  lemma NormalizeExampleLeadingSlash()
    ensures Normalize("/path") == "path"
  {
    assert StartsWith("/path", "/");
    assert "/path"[1..] == "path";
    assert Strip("path") == "path";
    ReplaceAbsent("path", ' ', '+');
    assert !HasDoubleSlash("path");
    CollapseSlashesIdentity("path");
  }

  /**
   * Collapsing distributes over a split point that no "//" straddles:
   * a clean head that does not end in '/' is kept as it is.
   */
  lemma {:induction false} CollapseSlashesAppend(a: string, b: string)
    requires !HasDoubleSlash(a) && (a == "" || a[|a| - 1] != '/')
    ensures CollapseSlashes(a + b) == a + CollapseSlashes(b)
  {
    if a == "" {
      assert a + b == b;
    } else {
      var t := a[1..];
      assert a + b == [a[0]] + (t + b);
      assert !HasDoubleSlash(t) && (t == "" || t[|t| - 1] != '/') by {
        forall i | 0 <= i < |t| - 1 ensures !(t[i] == '/' && t[i + 1] == '/') {
          assert t[i] == a[i + 1] && t[i + 1] == a[i + 2];
        }
      }
      assert !(a[0] == '/' && (a + b)[1] == '/') by {
        if |a| > 1 { assert (a + b)[1] == a[1]; }
      }
      CollapseSlashesAppend(t, b);
      assert CollapseSlashes(a + b) == [a[0]] + CollapseSlashes(t + b);
      assert a == [a[0]] + t;
    }
  }

  /** A single path name with no whitespace in it. */
  predicate CleanName(x: string) {
    x != "" && forall i :: 0 <= i < |x| ==> x[i] != '/' && !IsWhitespace(x[i])
  }

  lemma CleanNameHasNoDoubleSlash(x: string)
    requires CleanName(x)
    ensures !HasDoubleSlash("/" + x) && ("/" + x)[|"/" + x| - 1] != '/'
  {
    var s := "/" + x;
    forall i | 0 <= i < |s| - 1 ensures !(s[i] == '/' && s[i + 1] == '/') {
      assert s[i + 1] == x[i];
    }
  }

  /** Normalising '/' + `p`, for a `p` without spaces or surrounding whitespace. */
  lemma NormalizeSlashed(p: string)
    requires Strip(p) == p && ' ' !in p
    ensures Normalize("/" + p) == CollapseSlashes(p)
  {
    assert ("/" + p)[..1] == "/" && ("/" + p)[1..] == p;
    ReplaceAbsent(p, ' ', '+');
  }

  lemma StripClean(s: string)
    requires s != "" && !IsWhitespace(s[0]) && !IsWhitespace(s[|s| - 1])
    ensures Strip(s) == s
  {
  }

  lemma TwoCleanNames(x: string, y: string)
    requires CleanName(x) && CleanName(y)
    ensures var p := "/" + x + "//" + y;
      "//" + x + "//" + y == "/" + p && ' ' !in p && p[0] == '/' && p[|p| - 1] == y[|y| - 1] &&
      p == ("/" + x) + ("//" + y)
  {
    var p := "/" + x + "//" + y;
    assert forall i :: 0 <= i < |p| ==> p[i] == '/' || p[i] in x || p[i] in y;
  }

  lemma CollapseLeadingDoubleSlash(y: string)
    requires CleanName(y)
    ensures CollapseSlashes("//" + y) == "/" + y
  {
    CleanNameHasNoDoubleSlash(y);
    NoDoubleSlashInSlice("/" + y, 1, |y| + 1);
    assert ("/" + y)[1..|y| + 1] == y;
    CollapseSlashesIdentity(y);
    assert ("//" + y)[2..] == y;
  }

  lemma CollapseAfterCleanName(x: string, y: string)
    requires CleanName(x) && CleanName(y)
    ensures CollapseSlashes("/" + x + "//" + y) == "/" + x + "/" + y
  {
    TwoCleanNames(x, y);
    CleanNameHasNoDoubleSlash(x);
    CollapseSlashesAppend("/" + x, "//" + y);
    CollapseLeadingDoubleSlash(y);
    assert ("/" + x) + ("/" + y) == "/" + x + "/" + y;
  }

  lemma NormalizeSlashedCleanNames(x: string, y: string)
    requires CleanName(x) && CleanName(y)
    ensures Normalize("/" + ("/" + x + "//" + y)) == "/" + x + "/" + y
  {
    var p := "/" + x + "//" + y;
    TwoCleanNames(x, y);
    StripClean(p);
    NormalizeSlashed(p);
    CollapseAfterCleanName(x, y);
  }

  /**
   * Only the first of two leading slashes is dropped, and "//" inside is
   * collapsed: "//path//file" gives "/path/file", not the "path/file"
   * the documentation announces.
   */
  lemma NormalizeKeepsSecondLeadingSlash(x: string, y: string)
    requires CleanName(x) && CleanName(y)
    ensures Normalize("//" + x + "//" + y) == "/" + x + "/" + y
  {
    TwoCleanNames(x, y);
    NormalizeSlashedCleanNames(x, y);
  }

  // ---------------------------------------------------------------------
  // Name elements of a path
  // ---------------------------------------------------------------------

  /** The non-empty strings of `parts`, in order. */
  function NonEmpty(parts: seq<string>): (r: seq<string>)
    ensures |r| <= |parts|
    ensures forall i :: 0 <= i < |r| ==> r[i] != ""
  {
    if |parts| == 0 then []
    else NonEmpty(parts[..|parts| - 1]) + (if parts[|parts| - 1] == "" then [] else [parts[|parts| - 1]])
  }

  lemma {:induction false} NonEmptyAppend(a: seq<string>, b: seq<string>)
    ensures NonEmpty(a + b) == NonEmpty(a) + NonEmpty(b)
    decreases |b|
  {
    if |b| > 0 {
      assert (a + b)[..|a + b| - 1] == a + b[..|b| - 1];
      NonEmptyAppend(a, b[..|b| - 1]);
    } else {
      assert a + b == a;
    }
  }

  /**
   * The name elements of `Paths.get(path)` on a Unix file system: the
   * empty path has a single empty name; otherwise the names are the
   * non-empty pieces between separators, so "/" has none and redundant
   * or trailing slashes do not count.
   */
  function Names(path: string): (names: seq<string>)
    ensures path == "" ==> names == [""]
    ensures path != "" ==> forall i :: 0 <= i < |names| ==> names[i] != ""
  {
    if path == "" then [""] else NonEmpty(SplitAll(path))
  }

  lemma {:induction false} NonEmptyKeepsOut(parts: seq<string>, c: char)
    requires forall i :: 0 <= i < |parts| ==> c !in parts[i]
    ensures forall i :: 0 <= i < |NonEmpty(parts)| ==> c !in NonEmpty(parts)[i]
  {
    if |parts| > 0 {
      NonEmptyKeepsOut(parts[..|parts| - 1], c);
    }
  }

  /** No name holds a separator. */
  lemma NamesHaveNoSlash(path: string)
    ensures forall i :: 0 <= i < |Names(path)| ==> '/' !in Names(path)[i]
  {
    if path != "" {
      NonEmptyKeepsOut(SplitAll(path), '/');
    }
  }

  lemma {:induction false} LastSlashOfAppend(a: string, b: string)
    requires '/' !in b
    ensures LastIndexOf(a + "/" + b, '/') == |a|
    decreases |b|
  {
    var s := a + "/" + b;
    if |b| > 0 {
      assert s[..|s| - 1] == a + "/" + b[..|b| - 1];
      assert s[|s| - 1] == b[|b| - 1];
      assert b[|b| - 1] in b;
      assert forall x :: x in b[..|b| - 1] ==> x in b;
      LastSlashOfAppend(a, b[..|b| - 1]);
    }
  }

  /** Appending a separator and a name adds exactly that name. */
  lemma NamesAppend(a: string, b: string)
    requires a != "" && b != "" && '/' !in b
    ensures Names(a + "/" + b) == Names(a) + [b]
  {
    var s := a + "/" + b;
    LastSlashOfAppend(a, b);
    assert s[..|a|] == a && s[|a| + 1..] == b;
    assert SplitAll(s) == SplitAll(a) + [b];
    NonEmptyAppend(SplitAll(a), [b]);
    assert NonEmpty([b]) == [b] by {
      assert [b][..0] == [];
    }
  }

  /** A name under the root directory is the only name. */
  lemma NamesRooted(b: string)
    requires b != "" && '/' !in b
    ensures Names("/" + b) == [b]
  {
    var s := "/" + b;
    LastSlashOfAppend("", b);
    assert s == "" + "/" + b;
    assert s[..0] == "" && s[1..] == b;
    assert SplitAll(s) == [""] + [b];
    NonEmptyAppend([""], [b]);
    assert NonEmpty([b]) == [b] by {
      assert [b][..0] == [];
    }
    assert NonEmpty([""]) == [] by {
      assert [""][..0] == [];
    }
  }

  /** A trailing separator adds no name. */
  lemma NamesTrailingSlash(a: string)
    requires a != ""
    ensures Names(a + "/") == Names(a)
  {
    var s := a + "/";
    LastSlashOfAppend(a, "");
    assert s == a + "/" + "";
    assert s[..|a|] == a && s[|a| + 1..] == "";
    NonEmptyAppend(SplitAll(a), [""]);
    assert NonEmpty([""]) == [] by {
      assert [""][..0] == [];
    }
  }

  /** A single name with no separator. */
  lemma NamesSingle(b: string)
    requires b != "" && '/' !in b
    ensures Names(b) == [b]
  {
    assert NonEmpty([b]) == [b] by {
      assert [b][..0] == [];
    }
  }

  lemma {:induction false} SplitAllKeepsOut(s: string, c: char)
    requires c !in s
    ensures forall i :: 0 <= i < |SplitAll(s)| ==> c !in SplitAll(s)[i]
  {
    var i := LastIndexOf(s, '/');
    if i != -1 {
      assert forall x :: x in s[..i] ==> x in s;
      assert forall x :: x in s[i + 1..] ==> x in s;
      SplitAllKeepsOut(s[..i], c);
    }
  }

  /** A character absent from the path is absent from each of its names. */
  lemma NamesKeepOut(path: string, c: char)
    requires c !in path
    ensures forall i :: 0 <= i < |Names(path)| ==> c !in Names(path)[i]
  {
    if path != "" {
      SplitAllKeepsOut(path, c);
      NonEmptyKeepsOut(SplitAll(path), c);
    }
  }

  lemma {:induction false} JoinKeepsOut(parts: seq<string>, c: char)
    requires c != '/'
    requires forall i :: 0 <= i < |parts| ==> c !in parts[i]
    ensures c !in Join(parts)
  {
    if |parts| > 1 {
      JoinKeepsOut(parts[..|parts| - 1], c);
    }
  }

  /**
   * `getParentFromEndAtN`: the `n`-th name counted from the end, 0 being
   * the last. IllegalArgument when there is no such name, and when the
   * path holds a NUL character, which `Paths.get` rejects.
   */
  function ParentFromEndAtN(path: string, n: int): (r: Result<string>)
    ensures r.Ok? <==> '\0' !in path && 0 <= n < |Names(path)|
    ensures r.Err? ==> r.error == IllegalArgument
    ensures r.Ok? ==> r.value in Names(path) && '/' !in r.value
    ensures r.Ok? && path != "" ==> r.value != ""
  {
    if '\0' in path then Err(IllegalArgument)
    else
      var names := Names(path);
      if n >= |names| || n < 0 then Err(IllegalArgument)
      else
        NamesHaveNoSlash(path);
        Ok(names[|names| - n - 1])
  }

  lemma NulOfAppend(a: string, b: string)
    requires '\0' !in b
    ensures '\0' in a + "/" + b <==> '\0' in a
  {
    var s := a + "/" + b;
    assert forall x :: x in s <==> x in a || x == '/' || x in b;
  }

  /** Counting from the end, name 0 of `a/b` is `b`. */
  lemma ParentFromEndOfAppend(a: string, b: string)
    requires a != "" && b != "" && '/' !in b && '\0' !in b && '\0' !in a
    ensures ParentFromEndAtN(a + "/" + b, 0) == Ok(b)
  {
    NamesAppend(a, b);
    NulOfAppend(a, b);
  }

  /** Counting from the end, name n+1 of `a/b` is name n of `a`. */
  lemma ParentFromEndOfAppendShift(a: string, b: string, n: int)
    requires a != "" && b != "" && '/' !in b && '\0' !in b && n >= 0
    ensures ParentFromEndAtN(a + "/" + b, n + 1) == ParentFromEndAtN(a, n)
  {
    NamesAppend(a, b);
    NulOfAppend(a, b);
    var names, longer := Names(a), Names(a + "/" + b);
    if '\0' !in a && n < |names| {
      assert longer[|longer| - (n + 1) - 1] == names[|names| - n - 1];
    }
  }

  /** A name: non-empty, without separator. */
  predicate IsName(x: string) {
    x != "" && '/' !in x
  }

  lemma NamesOfThreeRooted(x: string, y: string, z: string)
    requires IsName(x) && IsName(y) && IsName(z)
    ensures Names("/" + x + "/" + y + "/" + z) == [x, y, z]
  {
    NamesRooted(x);
    NamesAppend("/" + x, y);
    NamesAppend("/" + x + "/" + y, z);
  }

  lemma NamesOfThreeRelative(x: string, y: string, z: string)
    requires IsName(x) && IsName(y) && IsName(z)
    ensures Names(x + "/" + y + "/" + z) == [x, y, z]
  {
    NamesSingle(x);
    NamesAppend(x, y);
    NamesAppend(x + "/" + y, z);
  }

  /** Reading the names of a three-name path from the end. */
  lemma ParentFromEndOfThree(p: string, x: string, y: string, z: string)
    requires '\0' !in p && Names(p) == [x, y, z]
    ensures ParentFromEndAtN(p, 0) == Ok(z)
    ensures ParentFromEndAtN(p, 1) == Ok(y)
    ensures ParentFromEndAtN(p, 2) == Ok(x)
    ensures ParentFromEndAtN(p, 3) == Err(IllegalArgument)
  {
  }

  /**
   * The unit-test rows for `getParentFromEndAtN`, over any three names:
   * "/n1/n2/n3" gives n3, n2, n1 for 0, 1, 2 and fails for 3. The same
   * holds without the leading '/', so ("n1/n2/n3", 0) gives "n3", not the
   * "n1" the documentation announces.
   */
  lemma ParentFromEndOfThreeNames(x: string, y: string, z: string)
    requires IsName(x) && IsName(y) && IsName(z) && '\0' !in x + y + z
    ensures var p := "/" + x + "/" + y + "/" + z;
      ParentFromEndAtN(p, 0) == Ok(z) && ParentFromEndAtN(p, 1) == Ok(y) &&
      ParentFromEndAtN(p, 2) == Ok(x) && ParentFromEndAtN(p, 3) == Err(IllegalArgument)
    ensures var q := x + "/" + y + "/" + z;
      ParentFromEndAtN(q, 0) == Ok(z) && ParentFromEndAtN(q, 1) == Ok(y) &&
      ParentFromEndAtN(q, 2) == Ok(x) && ParentFromEndAtN(q, 3) == Err(IllegalArgument)
  {
    var p := "/" + x + "/" + y + "/" + z;
    var q := x + "/" + y + "/" + z;
    NoNulInThree(x, y, z);
    NamesOfThreeRooted(x, y, z);
    ParentFromEndOfThree(p, x, y, z);
    NamesOfThreeRelative(x, y, z);
    ParentFromEndOfThree(q, x, y, z);
  }

  lemma NoNulInThree(x: string, y: string, z: string)
    requires '\0' !in x + y + z
    ensures '\0' !in "/" + x + "/" + y + "/" + z && '\0' !in x + "/" + y + "/" + z
  {
    assert forall c :: c in x || c in y || c in z ==> c in x + y + z;
  }

  /** The rows ("/n1", 1) and ("n1", 1): a single name has no parent. */
  lemma ParentFromEndOfOneName(p: string, x: string)
    requires IsName(x) && '\0' !in p
    requires p == "/" + x || p == x
    ensures ParentFromEndAtN(p, 0) == Ok(x)
    ensures ParentFromEndAtN(p, 1) == Err(IllegalArgument)
  {
    if p == x {
      NamesSingle(x);
    } else {
      NamesRooted(x);
    }
  }

  // ---------------------------------------------------------------------
  // Ancestor directories
  // ---------------------------------------------------------------------

  /**
   * The directories a `StringJoiner` builds while the names `dirs` are
   * added one by one, each prefixed with `base` and closed by '/'.
   */
  function Chain(base: string, dirs: seq<string>): (r: seq<string>)
    ensures |r| == |dirs|
  {
    if |dirs| == 0 then [] else Chain(base, dirs[..|dirs| - 1]) + [base + Join(dirs) + "/"]
  }

  lemma {:induction false} ChainElement(base: string, dirs: seq<string>, k: int)
    requires 0 <= k < |dirs|
    ensures Chain(base, dirs)[k] == base + Join(dirs[..k + 1]) + "/"
  {
    if k < |dirs| - 1 {
      ChainElement(base, dirs[..|dirs| - 1], k);
      assert dirs[..|dirs| - 1][..k + 1] == dirs[..k + 1];
    } else {
      assert dirs[..k + 1] == dirs;
    }
  }

  /**
   * `getNestedDirectories(basePath, path)`: nothing when `path` has no
   * '/'; otherwise one directory per name of the part before the last
   * '/', split as `String.split("/")` does.
   */
  function NestedDirectories(base: string, path: string): seq<string> {
    if '/' !in path then [] else Chain(base, Split(path[..LastIndexOf(path, '/')]))
  }

  /** The loop of `getNestedDirectories`, growing the joiner and the result list. */
  method GetNestedDirectories(base: string, path: string) returns (result: seq<string>)
    ensures result == NestedDirectories(base, path)
  {
    if '/' !in path {
      return [];
    }
    var dirNames := Split(path[..LastIndexOf(path, '/')]);
    result := [];
    var joined := "";
    var i := 0;
    while i < |dirNames|
      invariant 0 <= i <= |dirNames|
      invariant joined == Join(dirNames[..i])
      invariant result == Chain(base, dirNames[..i])
    {
      joined := if i == 0 then dirNames[0] else joined + "/" + dirNames[i];
      assert dirNames[..i + 1][..i] == dirNames[..i];
      result := result + [base + joined + "/"];
      i := i + 1;
    }
    assert dirNames[..i] == dirNames;
  }

  /** One ancestor: it starts with `base` and ends in '/'. */
  lemma ChainShape(base: string, dirs: seq<string>, k: int)
    requires 0 <= k < |dirs|
    ensures StartsWith(Chain(base, dirs)[k], base) && EndsWith(Chain(base, dirs)[k], "/")
  {
    ChainElement(base, dirs, k);
    StartsWithAppend(base, Join(dirs[..k + 1]) + "/");
    assert Chain(base, dirs)[k] == base + (Join(dirs[..k + 1]) + "/");
    EndsWithAppend(base + Join(dirs[..k + 1]), "/");
  }

  /** Two neighbouring ancestors: the first is a strict prefix of the second. */
  lemma ChainGrows(base: string, dirs: seq<string>, k: int)
    requires 0 <= k < |dirs| - 1
    ensures StartsWith(Chain(base, dirs)[k + 1], Chain(base, dirs)[k])
    ensures |Chain(base, dirs)[k]| < |Chain(base, dirs)[k + 1]|
  {
    var r := Chain(base, dirs);
    ChainElement(base, dirs, k);
    ChainElement(base, dirs, k + 1);
    assert dirs[..k + 2][..k + 1] == dirs[..k + 1];
    assert r[k + 1] == r[k] + (dirs[k + 1] + "/");
    StartsWithAppend(r[k], dirs[k + 1] + "/");
  }

  /** Every ancestor starts with `base` and ends in '/'. */
  lemma NestedDirectoriesShape(base: string, path: string)
    ensures forall k :: 0 <= k < |NestedDirectories(base, path)| ==>
      StartsWith(NestedDirectories(base, path)[k], base) && EndsWith(NestedDirectories(base, path)[k], "/")
  {
    if '/' in path {
      var dirs := Split(path[..LastIndexOf(path, '/')]);
      forall k | 0 <= k < |dirs|
        ensures StartsWith(Chain(base, dirs)[k], base) && EndsWith(Chain(base, dirs)[k], "/")
      {
        ChainShape(base, dirs, k);
      }
    }
  }

  /** Each ancestor is a strict prefix of the next. */
  lemma NestedDirectoriesGrow(base: string, path: string)
    ensures forall k :: 0 <= k < |NestedDirectories(base, path)| - 1 ==>
      StartsWith(NestedDirectories(base, path)[k + 1], NestedDirectories(base, path)[k]) &&
      |NestedDirectories(base, path)[k]| < |NestedDirectories(base, path)[k + 1]|
  {
    if '/' in path {
      var dirs := Split(path[..LastIndexOf(path, '/')]);
      forall k | 0 <= k < |dirs| - 1
        ensures StartsWith(Chain(base, dirs)[k + 1], Chain(base, dirs)[k]) && |Chain(base, dirs)[k]| < |Chain(base, dirs)[k + 1]|
      {
        ChainGrows(base, dirs, k);
      }
    }
  }

  /** The prefixes of `s` that end in '/', shortest first. */
  function SlashPrefixes(s: string): seq<string> {
    if s == "" then []
    else SlashPrefixes(s[..|s| - 1]) + (if s[|s| - 1] == '/' then [s] else [])
  }

  /**
   * `SlashPrefixes(s)` holds exactly the prefixes of `s` that end in '/',
   * strictly growing.
   */
  lemma {:induction false} SlashPrefixesMeaning(s: string)
    ensures forall x :: x in SlashPrefixes(s) <==> StartsWith(s, x) && EndsWith(x, "/")
    ensures forall i :: 0 <= i < |SlashPrefixes(s)| - 1 ==> |SlashPrefixes(s)[i]| < |SlashPrefixes(s)[i + 1]|
    ensures forall i :: 0 <= i < |SlashPrefixes(s)| ==> |SlashPrefixes(s)[i]| <= |s|
  {
    if s != "" {
      var h := s[..|s| - 1];
      SlashPrefixesMeaning(h);
      var r := SlashPrefixes(s);
      forall x ensures x in r <==> StartsWith(s, x) && EndsWith(x, "/") {
        if StartsWith(s, x) && |x| < |s| {
          assert x == h[..|x|];
          assert StartsWith(h, x);
        }
        if StartsWith(h, x) {
          assert s[..|x|] == h[..|x|];
        }
        if StartsWith(s, x) && |x| == |s| {
          assert x == s;
        }
      }
    }
  }

  lemma {:induction false} SlashPrefixesAppend(s: string, t: string)
    requires '/' !in t
    ensures SlashPrefixes(s + t) == SlashPrefixes(s)
    decreases |t|
  {
    if |t| > 0 {
      assert (s + t)[..|s + t| - 1] == s + t[..|t| - 1];
      assert t[|t| - 1] in t;
      SlashPrefixesAppend(s, t[..|t| - 1]);
    } else {
      assert s + t == s;
    }
  }

  lemma SplitAround(s: string, i: int)
    requires 0 <= i < |s| && s[i] == '/'
    ensures s == (s[..i] + "/") + s[i + 1..]
  {
  }

  lemma TakeAppend(a: seq<string>, b: seq<string>)
    ensures (a + b)[..|a|] == a
  {
  }

  lemma SplitAllStep(s: string)
    requires '/' in s
    ensures var i := LastIndexOf(s, '/');
      SplitAll(s) == SplitAll(s[..i]) + [s[i + 1..]] &&
      SplitAll(s)[..|SplitAll(s)| - 1] == SplitAll(s[..i])
  {
    var i := LastIndexOf(s, '/');
    assert SplitAll(s) == SplitAll(s[..i]) + [s[i + 1..]];
    TakeAppend(SplitAll(s[..i]), [s[i + 1..]]);
  }

  lemma SlashPrefixesOfDirectory(s: string)
    ensures SlashPrefixes(s + "/") == SlashPrefixes(s) + [s + "/"]
  {
    var t := s + "/";
    assert t[..|t| - 1] == s;
  }

  lemma SlashPrefixesOfName(s: string)
    requires '/' !in s
    ensures SlashPrefixes(s) == []
  {
    SlashPrefixesAppend("", s);
    assert "" + s == s;
  }

  lemma ChainStep(base: string, dirs: seq<string>)
    requires |dirs| > 0
    ensures Chain(base, dirs) == Chain(base, dirs[..|dirs| - 1]) + [base + Join(dirs) + "/"]
  {
  }

  lemma {:induction false} ChainSplitAll(s: string)
    ensures Chain("", SplitAll(s)) == SlashPrefixes(s + "/")
  {
    if LastIndexOf(s, '/') == -1 {
      var parts := SplitAll(s);
      SlashPrefixesOfDirectory(s);
      ChainStep("", parts);
      JoinSplitAll(s);
      assert "" + Join(parts) + "/" == s + "/";
      SlashPrefixesOfName(s);
      assert parts[..|parts| - 1] == [];
    } else {
      ChainSplitAll(s[..LastIndexOf(s, '/')]);
      ChainSplitAllStep(s);
    }
  }

  /** The step of `ChainSplitAll` for a string holding a '/'. */
  lemma ChainSplitAllStep(s: string)
    requires LastIndexOf(s, '/') != -1
    requires Chain("", SplitAll(s[..LastIndexOf(s, '/')])) == SlashPrefixes(s[..LastIndexOf(s, '/')] + "/")
    ensures Chain("", SplitAll(s)) == SlashPrefixes(s + "/")
  {
    var parts := SplitAll(s);
    var i := LastIndexOf(s, '/');
    var h := s[..i];
    assert "" + Join(parts) + "/" == s + "/" by {
      JoinSplitAll(s);
      assert "" + s == s;
    }
    assert parts[..|parts| - 1] == SplitAll(h) by {
      SplitAllStep(s);
    }
    ChainStep("", parts);
    assert Chain("", parts) == SlashPrefixes(h + "/") + [s + "/"];
    SplitAround(s, i);
    SlashPrefixesAppend(h + "/", s[i + 1..]);
    assert SlashPrefixes(s) == SlashPrefixes(h + "/");
    SlashPrefixesOfDirectory(s);
  }

  lemma {:induction false} SplitAllNoTrailingEmpty(s: string)
    requires s != "" && s[|s| - 1] != '/'
    ensures SplitAll(s)[|SplitAll(s)| - 1] != ""
  {
  }

  lemma SplitOfCleanEnd(s: string)
    requires s == "" || s[|s| - 1] != '/'
    ensures Split(s) == SplitAll(s)
  {
    if s != "" {
      SplitAllNoTrailingEmpty(s);
    }
  }

  /**
   * With an empty base, the ancestors of a key with no "//" are exactly
   * the prefixes of that key ending in '/', shortest first.
   */
  lemma NestedDirectoriesAreAncestors(key: string)
    requires !HasDoubleSlash(key)
    ensures NestedDirectories("", key) == SlashPrefixes(key)
  {
    if '/' !in key {
      SlashPrefixesOfName(key);
    } else {
      var j := LastIndexOf(key, '/');
      var s := key[..j];
      assert s == "" || s[|s| - 1] != '/' by {
        assert j > 0 ==> s[|s| - 1] == key[j - 1];
      }
      SplitOfCleanEnd(s);
      ChainSplitAll(s);
      SplitAround(key, j);
      SlashPrefixesAppend(s + "/", key[j + 1..]);
    }
  }

  // ---------------------------------------------------------------------
  // Request path validation
  // ---------------------------------------------------------------------

  /**
   * The character class of the validation pattern: Latin and Cyrillic
   * letters (а-я is U+0430..U+044F, А-Я is U+0410..U+042F), digits and
   * `! - _ . * ' ( ) / +` and space.
   */
  predicate IsPathChar(c: char) {
    || ('a' <= c <= 'z') || ('A' <= c <= 'Z')
    || ('\U{0430}' <= c <= '\U{044F}') || ('\U{0410}' <= c <= '\U{042F}')
    || ('0' <= c <= '9')
    || c in "!-_.*'()/+ "
  }

  /** `isPathValid`; a `null` path (None) is an IllegalArgument. */
  function IsPathValid(path: Option<string>): (r: Result<bool>)
    ensures r.Err? <==> path.None?
    ensures r.Err? ==> r.error == IllegalArgument
    ensures path.Some? ==> (r.Ok? && (r.value <==>
      |path.value| <= 1024 && (forall i :: 0 <= i < |path.value| ==> IsPathChar(path.value[i])) && !HasDoubleSlash(path.value)))
  {
    match path
    case None => Err(IllegalArgument)
    case Some(p) =>
      if p == "" || p == "/" then Ok(true)
      else if |p| > 1024 then Ok(false)
      else if exists i :: 0 <= i < |p| && !IsPathChar(p[i]) then Ok(false)
      else if HasDoubleSlash(p) then Ok(false)
      else Ok(true)
  }

  /** A substring of a string without "//" has none either. */
  lemma NoDoubleSlashInSlice(s: string, a: int, b: int)
    requires 0 <= a <= b <= |s| && !HasDoubleSlash(s)
    ensures !HasDoubleSlash(s[a..b])
  {
    var t := s[a..b];
    forall i | 0 <= i < |t| - 1 ensures !(t[i] == '/' && t[i + 1] == '/') {
      assert t[i] == s[a + i] && t[i + 1] == s[a + i + 1];
    }
  }

  lemma NoDoubleSlashAfterReplace(s: string)
    requires !HasDoubleSlash(s)
    ensures !HasDoubleSlash(ReplaceChar(s, ' ', '+'))
  {
    var t := ReplaceChar(s, ' ', '+');
    forall i | 0 <= i < |t| - 1 ensures !(t[i] == '/' && t[i + 1] == '/') {
      assert t[i] == '/' ==> s[i] == '/';
      assert t[i + 1] == '/' ==> s[i + 1] == '/';
    }
  }

  lemma NormalizeSteps(path: string)
    ensures var p := if LeadingSlash(path) then path[1..] else path;
      p == path[|path| - |p|..] &&
      Normalize(path) == CollapseSlashes(ReplaceChar(StripTrailing(StripLeading(p)), ' ', '+'))
  {
  }

  lemma CleanupKeepsNoDoubleSlash(p: string)
    requires !HasDoubleSlash(p)
    ensures !HasDoubleSlash(CollapseSlashes(ReplaceChar(StripTrailing(StripLeading(p)), ' ', '+')))
  {
    var l := StripLeading(p);
    StripLeadingIsSuffix(p);
    NoDoubleSlashInSlice(p, |p| - |l|, |p|);
    var t := StripTrailing(l);
    StripTrailingIsPrefix(l);
    NoDoubleSlashInSlice(l, 0, |t|);
    NoDoubleSlashAfterReplace(t);
    CollapseSlashesIdentity(ReplaceChar(t, ' ', '+'));
  }

  /** Normalising never creates a "//" in a path that has none. */
  lemma NormalizeKeepsNoDoubleSlash(path: string)
    requires !HasDoubleSlash(path)
    ensures !HasDoubleSlash(Normalize(path))
  {
    NormalizeSteps(path);
    var p := if LeadingSlash(path) then path[1..] else path;
    NoDoubleSlashInSlice(path, |path| - |p|, |path|);
    CleanupKeepsNoDoubleSlash(p);
  }

  /** A valid request path normalises to a key with no space and no "//". */
  lemma ValidPathNormalizesCleanly(path: string)
    requires IsPathValid(Some(path)) == Ok(true)
    ensures ' ' !in Normalize(path) && !HasDoubleSlash(Normalize(path))
  {
    NormalizeHasNoSpace(path);
    NormalizeKeepsNoDoubleSlash(path);
  }

  // ---------------------------------------------------------------------
  // Breadcrumbs
  // ---------------------------------------------------------------------

  datatype Breadcrumb = Breadcrumb(path: string, name: string)

  /**
   * `constructBreadcrumb`: the names from `parentStart` on are split into
   * the parent directories (joined, closed by '/', or "/" when there are
   * none, every '\' turned into '/') and the last name (closed by '/' for a
   * directory, every '+' turned into a space). When `parentStart` equals
   * the name count the breadcrumb is the root ("/", "/"); any other index
   * out of range, or a NUL in the path, is an IllegalArgument.
   */
  function ConstructBreadcrumb(path: string, isDir: bool, parentStart: int): (r: Result<Breadcrumb>)
    ensures r.Err? <==> '\0' in path || parentStart < 0 || parentStart > |Names(path)|
    ensures r.Err? ==> r.error == IllegalArgument
    ensures r.Ok? && parentStart == |Names(path)| ==> r.value == Breadcrumb("/", "/")
  {
    if '\0' in path then Err(IllegalArgument)
    else
      var names := Names(path);
      if parentStart == |names| then Ok(Breadcrumb("/", "/"))
      else if parentStart < 0 || parentStart > |names| then Err(IllegalArgument)
      else
        var sub := names[parentStart..];
        var filePath := if |sub| == 1 then "/" else Join(sub[..|sub| - 1]) + "/";
        var fileName := if isDir then sub[|sub| - 1] + "/" else sub[|sub| - 1];
        Ok(Breadcrumb(ReplaceChar(filePath, '\\', '/'), ReplaceChar(fileName, '+', ' ')))
  }

  /** The two parts `constructBreadcrumb` assembles below the root. */
  lemma BreadcrumbParts(path: string, isDir: bool, parentStart: int)
    requires '\0' !in path && 0 <= parentStart < |Names(path)|
    ensures var sub := Names(path)[parentStart..];
      ConstructBreadcrumb(path, isDir, parentStart) == Ok(Breadcrumb(
        ReplaceChar(if |sub| == 1 then "/" else Join(sub[..|sub| - 1]) + "/", '\\', '/'),
        ReplaceChar(if isDir then sub[|sub| - 1] + "/" else sub[|sub| - 1], '+', ' ')))
  {
  }

  lemma BreadcrumbNameIsLastName(path: string, isDir: bool, parentStart: int)
    requires '+' !in path && '\0' !in path && 0 <= parentStart < |Names(path)|
    ensures var last := Names(path)[|Names(path)| - 1];
      ConstructBreadcrumb(path, isDir, parentStart).value.name == (if isDir then last + "/" else last)
  {
    BreadcrumbParts(path, isDir, parentStart);
    NamesKeepOut(path, '+');
    var names := Names(path);
    var last := names[|names| - 1];
    assert names[parentStart..][|names| - parentStart - 1] == last;
    ReplaceAbsent(if isDir then last + "/" else last, '+', ' ');
  }

  lemma BreadcrumbPathIsParents(path: string, isDir: bool, parentStart: int)
    requires '\\' !in path && '\0' !in path && 0 <= parentStart < |Names(path)|
    ensures var sub := Names(path)[parentStart..];
      ConstructBreadcrumb(path, isDir, parentStart).value.path ==
        (if |sub| == 1 then "/" else Join(sub[..|sub| - 1]) + "/")
  {
    BreadcrumbParts(path, isDir, parentStart);
    var sub := Names(path)[parentStart..];
    if |sub| > 1 {
      NamesKeepOut(path, '\\');
      var parents := sub[..|sub| - 1];
      assert forall i :: 0 <= i < |parents| ==> parents[i] == Names(path)[parentStart + i];
      JoinKeepsOut(parents, '\\');
      ReplaceAbsent(Join(parents) + "/", '\\', '/');
    } else {
      ReplaceAbsent("/", '\\', '/');
    }
  }

  lemma JoinLastSuffix(parts: seq<string>, suffix: string)
    requires |parts| > 1
    ensures Join(parts[..|parts| - 1]) + "/" + (parts[|parts| - 1] + suffix) == Join(parts) + suffix
  {
  }

  /** A parent path built from all names but the last, followed by the last name, spells all the names. */
  lemma SpellsFromParts(sub: seq<string>, p: string, n: string, suffix: string)
    requires |sub| > 0 && (|sub| > 1 ==> sub[0] != "")
    requires p == (if |sub| == 1 then "/" else Join(sub[..|sub| - 1]) + "/")
    requires n == sub[|sub| - 1] + suffix
    ensures (if p == "/" then "" else p) + n == Join(sub) + suffix
  {
    if |sub| > 1 {
      JoinNonEmptyHead(sub[..|sub| - 1]);
      JoinLastSuffix(sub, suffix);
    }
  }

  /**
   * Below the root, a breadcrumb's path followed by its name spells the
   * selected names joined by '/', closed by '/' for a directory, with the
   * path "/" standing for no parent.
   */
  lemma BreadcrumbSpellsSubpath(path: string, isDir: bool, parentStart: int)
    requires '\\' !in path && '+' !in path && '\0' !in path
    requires 0 <= parentStart < |Names(path)|
    ensures var b := ConstructBreadcrumb(path, isDir, parentStart).value;
      (if b.path == "/" then "" else b.path) + b.name ==
        Join(Names(path)[parentStart..]) + (if isDir then "/" else "")
  {
    BreadcrumbNameIsLastName(path, isDir, parentStart);
    BreadcrumbPathIsParents(path, isDir, parentStart);
    var names := Names(path);
    var sub := names[parentStart..];
    assert sub[|sub| - 1] == names[|names| - 1];
    assert |sub| > 1 ==> sub[0] == names[parentStart] && sub[0] != "";
    var b := ConstructBreadcrumb(path, isDir, parentStart).value;
    SpellsFromParts(sub, b.path, b.name, if isDir then "/" else "");
  }

  /** A directory's breadcrumb name ends in '/'; a file's holds no '/'. */
  lemma BreadcrumbNameShape(path: string, isDir: bool, parentStart: int)
    requires '+' !in path && '\0' !in path
    requires 0 <= parentStart < |Names(path)|
    ensures var b := ConstructBreadcrumb(path, isDir, parentStart).value;
      (isDir ==> EndsWith(b.name, "/")) && (!isDir ==> '/' !in b.name)
  {
    BreadcrumbNameIsLastName(path, isDir, parentStart);
    NamesHaveNoSlash(path);
    var last := Names(path)[|Names(path)| - 1];
    if isDir {
      EndsWithAppend(last, "/");
    }
  }

  /**
   * A breadcrumb's path is "/" or ends in '/' without starting with one,
   * as long as no name holds a '\\' (which the path turns into '/').
   */
  lemma BreadcrumbPathShape(path: string, isDir: bool, parentStart: int)
    requires '\\' !in path && '\0' !in path
    requires 0 <= parentStart < |Names(path)|
    ensures var b := ConstructBreadcrumb(path, isDir, parentStart).value;
      b.path == "/" || (EndsWith(b.path, "/") && b.path[0] != '/')
  {
    BreadcrumbPathIsParents(path, isDir, parentStart);
    NamesHaveNoSlash(path);
    var names := Names(path);
    var sub := names[parentStart..];
    if |sub| > 1 {
      var parents := sub[..|sub| - 1];
      assert parents[0] == names[parentStart];
      if path != "" {
        JoinHead(parents);
        assert parents[0][0] in parents[0];
      }
      EndsWithAppend(Join(parents), "/");
    }
  }

  lemma {:induction false} JoinHead(parts: seq<string>)
    requires |parts| > 0 && parts[0] != ""
    ensures |Join(parts)| > 0 && Join(parts)[0] == parts[0][0]
  {
    if |parts| > 1 {
      JoinHead(parts[..|parts| - 1]);
    }
  }

  lemma {:induction false} JoinNonEmptyHead(parts: seq<string>)
    requires |parts| > 0 && parts[0] != ""
    ensures |Join(parts)| > 0
  {
    if |parts| > 1 {
      JoinNonEmptyHead(parts[..|parts| - 1]);
    }
  }

  /** A plain name: no separator, and none of the characters breadcrumbs rewrite. */
  predicate PlainName(x: string) {
    IsName(x) && '+' !in x && '\\' !in x && '\0' !in x
  }

  lemma NamesOfRootedTwo(x: string, y: string)
    requires IsName(x) && IsName(y)
    ensures Names("/" + x + "/" + y) == [x, y]
  {
    NamesRooted(x);
    NamesAppend("/" + x, y);
  }

  lemma NamesOfRelativeTwo(x: string, y: string)
    requires IsName(x) && IsName(y)
    ensures Names(x + "/" + y) == [x, y]
  {
    NamesSingle(x);
    NamesAppend(x, y);
  }

  lemma NamesOfTrailingTwo(x: string, y: string)
    requires IsName(x) && IsName(y)
    ensures Names(x + "/" + y + "/") == [x, y]
  {
    NamesOfRelativeTwo(x, y);
    NamesTrailingSlash(x + "/" + y);
  }

  lemma NoSpecialInTwo(x: string, y: string)
    requires PlainName(x) && PlainName(y)
    ensures forall c :: c in "+\\\0" ==> c !in "/" + x + "/" + y && c !in x + "/" + y && c !in x + "/" + y + "/"
  {
  }

  /** The unit-test row ("/folder/folder2", true, 0) gives ("folder/", "folder2/"), for any plain names. */
  lemma BreadcrumbOfRootedTwo(x: string, y: string)
    requires PlainName(x) && PlainName(y)
    ensures ConstructBreadcrumb("/" + x + "/" + y, true, 0) == Ok(Breadcrumb(x + "/", y + "/"))
  {
    var p := "/" + x + "/" + y;
    NamesOfRootedTwo(x, y);
    NoSpecialInTwo(x, y);
    BreadcrumbNameIsLastName(p, true, 0);
    BreadcrumbPathIsParents(p, true, 0);
    assert [x, y][0..][..1] == [x];
  }

  /** The unit-test row ("folder/folder2", true, 0) gives ("folder/", "folder2/"), for any plain names. */
  lemma BreadcrumbOfRelativeTwo(x: string, y: string)
    requires PlainName(x) && PlainName(y)
    ensures ConstructBreadcrumb(x + "/" + y, true, 0) == Ok(Breadcrumb(x + "/", y + "/"))
  {
    var p := x + "/" + y;
    NamesOfRelativeTwo(x, y);
    NoSpecialInTwo(x, y);
    BreadcrumbNameIsLastName(p, true, 0);
    BreadcrumbPathIsParents(p, true, 0);
    assert [x, y][0..][..1] == [x];
  }

  /** The unit-test row ("folder/file/", false, 1) gives ("/", "file"), for any plain names. */
  lemma BreadcrumbOfTrailingTwo(x: string, y: string)
    requires PlainName(x) && PlainName(y)
    ensures ConstructBreadcrumb(x + "/" + y + "/", false, 1) == Ok(Breadcrumb("/", y))
  {
    var p := x + "/" + y + "/";
    NamesOfTrailingTwo(x, y);
    NoSpecialInTwo(x, y);
    BreadcrumbNameIsLastName(p, false, 1);
    BreadcrumbPathIsParents(p, false, 1);
    assert [x, y][1..] == [y];
  }

  /**
   * When `parentStart` equals the name count the code answers the root
   * breadcrumb: "/" with 0 gives ("/", "/"), where the unit test's
   * invalid-data rows expect an IllegalArgumentException.
   */
  lemma BreadcrumbOfRootPath(isDir: bool)
    ensures ConstructBreadcrumb("/", isDir, 0) == Ok(Breadcrumb("/", "/"))
  {
    NamesOfRoot();
  }

  /** The root path "/" has no names. */
  lemma NamesOfRoot()
    ensures Names("/") == []
  {
    SplitAllOfRoot();
    NonEmptyOfTwoEmpty();
  }

  lemma SplitAllOfRoot()
    ensures SplitAll("/") == ["", ""]
  {
    assert LastIndexOf("/", '/') == 0;
    assert "/"[..0] == "" && "/"[1..] == "";
    assert LastIndexOf("", '/') == -1;
  }

  lemma NonEmptyOfTwoEmpty()
    ensures NonEmpty(["", ""]) == []
  {
    assert ["", ""][..1] == [""];
    assert [""][..0] == [];
  }

  /**
   * Likewise "/folder/" with 1 gives ("/", "/"), where the unit test
   * expects an IllegalArgumentException.
   */
  lemma BreadcrumbAtNameCount(x: string, isDir: bool)
    requires PlainName(x)
    ensures ConstructBreadcrumb("/" + x + "/", isDir, 1) == Ok(Breadcrumb("/", "/"))
  {
    NamesRooted(x);
    NamesTrailingSlash("/" + x);
    assert '\0' !in "/" + x + "/";
  }

  /**
   * The other rows the unit test expects to throw all start at the name
   * count too: one name at 1 ("/x", "x/") and two names at 2 ("/x/y",
   * "x/y", "x/y/"), so each gives ("/", "/") as well.
   */
  lemma BreadcrumbsAtNameCount(x: string, y: string, isDir: bool)
    requires PlainName(x) && PlainName(y)
    ensures ConstructBreadcrumb("/" + x, isDir, 1) == Ok(Breadcrumb("/", "/"))
    ensures ConstructBreadcrumb(x + "/", isDir, 1) == Ok(Breadcrumb("/", "/"))
    ensures ConstructBreadcrumb("/" + x + "/" + y, isDir, 2) == Ok(Breadcrumb("/", "/"))
    ensures ConstructBreadcrumb(x + "/" + y, isDir, 2) == Ok(Breadcrumb("/", "/"))
    ensures ConstructBreadcrumb(x + "/" + y + "/", isDir, 2) == Ok(Breadcrumb("/", "/"))
  {
    NamesRooted(x);
    NamesSingle(x);
    NamesTrailingSlash(x);
    NamesOfRootedTwo(x, y);
    NamesOfRelativeTwo(x, y);
    NamesTrailingSlash(x + "/" + y);
    assert '\0' !in "/" + x && '\0' !in x + "/";
    assert '\0' !in "/" + x + "/" + y && '\0' !in x + "/" + y && '\0' !in x + "/" + y + "/";
  }
}
