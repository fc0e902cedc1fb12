/**
 * The per-user key space: every object of user `id` lives under
 * "user-<id>-files/", and a request path is turned into a key by
 * prefixing it and normalising the result.
 */
module UserPaths {
  import opened Strings
  import opened PathUtils

  function Digit(d: nat): (c: char)
    requires d < 10
    ensures '0' <= c <= '9'
  {
    ('0' as int + d) as char
  }

  /** The decimal digits of `n`, most significant first. */
  function Digits(n: nat): (r: string)
    ensures r != "" && forall i :: 0 <= i < |r| ==> '0' <= r[i] <= '9'
  {
    if n < 10 then [Digit(n)] else Digits(n / 10) + [Digit(n % 10)]
  }

  /** `%d` formatting of a user id. */
  function DecimalString(id: int): (r: string)
    ensures r != "" && forall i :: 0 <= i < |r| ==> r[i] == '-' || '0' <= r[i] <= '9'
  {
    if id < 0 then "-" + Digits(-id) else Digits(id)
  }

  /** `MINIO_USER_PREFIX.formatted(id)`. */
  function UserPrefix(id: int): string {
    "user-" + DecimalString(id) + "-files/"
  }

  /**
   * `constructPath`: the bare prefix for an empty path, otherwise the
   * prefixed path normalised.
   */
  function ConstructPath(path: string, id: int): string {
    if path == "" then UserPrefix(id) else Normalize(UserPrefix(id) + path)
  }

  /** The prefix is a single '/'-terminated name without whitespace. */
  lemma UserPrefixShape(id: int)
    ensures var p := UserPrefix(id);
      |p| >= 2 && p[0] == 'u' && p[|p| - 1] == '/' && p[|p| - 2] != '/' &&
      (forall i :: 0 <= i < |p| ==> !IsWhitespace(p[i]) && p[i] != '+') &&
      (forall i :: 0 <= i < |p| - 1 ==> p[i] != '/')
  {
    var d := DecimalString(id);
    var p := UserPrefix(id);
    assert p == "user-" + d + "-files/";
    forall i | 0 <= i < |p|
      ensures !IsWhitespace(p[i]) && p[i] != '+' && (i < |p| - 1 ==> p[i] != '/')
    {
      if 5 <= i < 5 + |d| {
        assert p[i] == d[i - 5];
      }
    }
  }

  /** The prefix is already normal, so normalising it changes nothing. */
  lemma UserPrefixIsNormal(id: int)
    ensures Normalize(UserPrefix(id)) == UserPrefix(id)
  {
    var p := UserPrefix(id);
    UserPrefixShape(id);
    assert !HasDoubleSlash(p);
    assert ' ' !in p;
    NormalizeIdentity(p);
  }

  /**
   * The empty-path shortcut agrees with the general case: every key is the
   * normalised prefixed path.
   */
  lemma ConstructPathIsNormalizedPrefix(path: string, id: int)
    ensures ConstructPath(path, id) == Normalize(UserPrefix(id) + path)
  {
    if path == "" {
      EmptyPathIsPrefix(id);
    }
  }

  lemma EmptyPathIsPrefix(id: int)
    ensures Normalize(UserPrefix(id) + "") == UserPrefix(id)
  {
    UserPrefixIsNormal(id);
    assert UserPrefix(id) + "" == UserPrefix(id);
  }

  lemma {:induction false} StripTrailingAfter(a: string, b: string)
    requires a != "" && !IsWhitespace(a[|a| - 1])
    ensures StripTrailing(a + b) == a + StripTrailing(b)
    decreases |b|
  {
    if b == "" {
      assert a + b == a;
    } else {
      assert (a + b)[..|a + b| - 1] == a + b[..|b| - 1];
      assert (a + b)[|a + b| - 1] == b[|b| - 1];
      StripTrailingAfter(a, b[..|b| - 1]);
    }
  }

  lemma ReplaceCharAfter(a: string, b: string, from: char, to: char)
    requires from !in a
    ensures ReplaceChar(a + b, from, to) == a + ReplaceChar(b, from, to)
  {
    var l, r := ReplaceChar(a + b, from, to), a + ReplaceChar(b, from, to);
    assert |l| == |r|;
    forall i | 0 <= i < |l| ensures l[i] == r[i] {
      if i >= |a| {
        assert (a + b)[i] == b[i - |a|];
      }
    }
  }

  /** Collapsing a string that starts with '/' keeps that '/' first. */
  lemma CollapseKeepsLeadingSlash(u: string)
    ensures var c := CollapseSlashes("/" + u); |c| > 0 && c[0] == '/'
  {
    if |u| > 0 && u[0] == '/' {
      assert ("/" + u)[1] == '/';
    }
  }

  /**
   * A key-space prefix: one name followed by a single '/', with no
   * whitespace anywhere.
   */
  predicate IsSpacePrefix(p: string) {
    && |p| >= 2 && p[0] != '/' && p[|p| - 1] == '/'
    && (forall i :: 0 <= i < |p| ==> !IsWhitespace(p[i]))
    && (forall i :: 0 <= i < |p| - 1 ==> p[i] != '/')
  }

  lemma UserPrefixIsSpacePrefix(id: int)
    ensures IsSpacePrefix(UserPrefix(id))
  {
    UserPrefixShape(id);
  }

  lemma StripAfterSpacePrefix(p: string, path: string)
    requires IsSpacePrefix(p)
    ensures StripTrailing(StripLeading(p + path)) == p + StripTrailing(path)
  {
    assert (p + path)[0] == p[0];
    StripTrailingAfter(p, path);
  }

  lemma CollapseAfterSpacePrefix(p: string, u: string)
    requires IsSpacePrefix(p)
    ensures StartsWith(CollapseSlashes(p + u), p)
  {
    var head := p[..|p| - 1];
    assert p == head + "/";
    assert !HasDoubleSlash(head);
    assert p + u == head + ("/" + u);
    CollapseSlashesAppend(head, "/" + u);
    CollapseKeepsLeadingSlash(u);
    var c := CollapseSlashes("/" + u);
    assert (head + c)[..|p|] == head + "/";
  }

  lemma NormalizeWithoutLeadingSlash(s: string)
    requires s != "" && s[0] != '/'
    ensures Normalize(s) == CollapseSlashes(ReplaceChar(StripTrailing(StripLeading(s)), ' ', '+'))
  {
    assert !StartsWith(s, "/") by {
      assert s[..1][0] == s[0];
    }
    NormalizeSteps(s);
  }

  lemma CleanupAfterSpacePrefix(p: string, path: string)
    requires IsSpacePrefix(p)
    ensures ReplaceChar(StripTrailing(StripLeading(p + path)), ' ', '+')
         == p + ReplaceChar(StripTrailing(path), ' ', '+')
  {
    StripAfterSpacePrefix(p, path);
    assert ' ' !in p by {
      assert forall i :: 0 <= i < |p| ==> !IsWhitespace(p[i]);
    }
    ReplaceCharAfter(p, StripTrailing(path), ' ', '+');
  }

  lemma NormalizeAfterSpacePrefix(p: string, path: string)
    requires IsSpacePrefix(p)
    ensures StartsWith(Normalize(p + path), p)
  {
    assert (p + path)[0] == p[0];
    NormalizeWithoutLeadingSlash(p + path);
    CleanupAfterSpacePrefix(p, path);
    CollapseAfterSpacePrefix(p, ReplaceChar(StripTrailing(path), ' ', '+'));
  }

  /**
   * Normalising the prefix followed by anything keeps the prefix: no
   * request path leads out of the user's key space.
   */
  lemma ConstructPathStaysInUserSpace(path: string, id: int)
    ensures StartsWith(ConstructPath(path, id), UserPrefix(id))
  {
    ConstructPathIsNormalizedPrefix(path, id);
    UserPrefixIsSpacePrefix(id);
    NormalizeAfterSpacePrefix(UserPrefix(id), path);
  }

  /** Keys hold no space: spaces of the path become '+'. */
  lemma ConstructPathHasNoSpace(path: string, id: int)
    ensures ' ' !in ConstructPath(path, id)
  {
    ConstructPathIsNormalizedPrefix(path, id);
    NormalizeHasNoSpace(UserPrefix(id) + path);
  }
}
