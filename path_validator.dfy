/**
 * The bean-validation constraint on request paths: a stricter check than
 * `isPathValid`, allowing only ASCII letters, digits and `!-_.*'()/`.
 */
module PathValidator {
  import opened Strings
  import opened Errors
  import opened PathUtils

  /** A character of the constraint's pattern. */
  predicate IsKeyChar(c: char) {
    || ('a' <= c <= 'z') || ('A' <= c <= 'Z') || ('0' <= c <= '9')
    || c in "!-_.*'()/"
  }

  /** `isValid`: the chain of early rejections, read as one verdict. */
  function IsValid(key: string): (r: bool)
    ensures r ==> key != "" && |key| <= 1024 && !HasDoubleSlash(key)
    ensures r ==> forall i :: 0 <= i < |key| ==> IsKeyChar(key[i])
    ensures r ==> key == "/" || key[0] != '/'
  {
    if key == "" || |key| > 1024 then false
    else if exists i :: 0 <= i < |key| && !IsKeyChar(key[i]) then false
    else if key != "/" && StartsWith(key, "/") then false
    else if HasDoubleSlash(key) then false
    else true
  }

  /** Every rule of the constraint is needed and together they suffice. */
  lemma IsValidExactly(key: string)
    ensures IsValid(key) <==>
      && key != "" && |key| <= 1024
      && (forall i :: 0 <= i < |key| ==> IsKeyChar(key[i]))
      && (key == "/" || key[0] != '/')
      && !HasDoubleSlash(key)
  {
    if key != "" && key != "/" && key[0] != '/' {
      assert key[..1][0] == key[0];
    }
  }

  /** Spaces, '+' and non-ASCII letters pass `isPathValid` but not here. */
  lemma IsValidRejectsSpaceAndPlus(key: string)
    requires ' ' in key || '+' in key || exists i :: 0 <= i < |key| && key[i] >= '\U{0080}'
    ensures !IsValid(key)
  {
  }

  /** The constraint is stricter than `isPathValid`. */
  lemma ValidKeyIsValidPath(key: string)
    requires IsValid(key)
    ensures IsPathValid(Some(key)) == Ok(true)
  {
  }

  /**
   * A key the constraint accepts is already normal: normalising it, as
   * every service does before talking to the store, changes nothing.
   */
  lemma ValidKeyIsNormal(key: string)
    requires IsValid(key) && key != "/"
    ensures Normalize(key) == key
  {
    assert !StartsWith(key, "/") by {
      assert key[..1][0] == key[0];
    }
    assert forall i :: 0 <= i < |key| ==> !IsWhitespace(key[i]) by {
      forall i | 0 <= i < |key| ensures !IsWhitespace(key[i]) {
        assert IsKeyChar(key[i]);
      }
    }
    NormalizeIdentity(key);
  }
}
