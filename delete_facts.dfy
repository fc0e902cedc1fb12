/**
 * What deleting a directory tree and creating an empty directory
 * guarantee about the bucket.
 */
module DeleteFacts {
  import opened Strings
  import opened Errors
  import opened PathUtils
  import opened Store
  import opened StoreFacts
  import opened Metadata
  import opened Steps
  import opened Manipulation

  /** Keys below `p` are in normal form: the store names each by itself. */
  predicate NormalBelow(m: Objects, p: string) {
    forall k :: k in m && StartsWith(k, p) ==> Normalize(k) == k
  }

  /** Every name a recursive listing of `p` reports is a normal key below `p`. */
  lemma ListingNamesBelow(m: Objects, p: string)
    requires NormalBelow(m, p)
    ensures var names := ObjectNames(Listing(m, p, true));
      forall i :: 0 <= i < |names| ==> Normalize(names[i]) == names[i] && names[i] in Under(m, p)
  {
    RecursiveListingIsExact(m, p);
  }

  /** Every key below `p` is among the names a recursive listing of `p` reports. */
  lemma ListingNamesCover(m: Objects, p: string)
    ensures forall k :: k in Under(m, p) ==> k in ObjectNames(Listing(m, p, true))
  {
    var l := Listing(m, p, true);
    var names := ObjectNames(l);
    RecursiveListingIsExact(m, p);
    forall k | k in Under(m, p) ensures k in names {
      var i :| 0 <= i < |l| && l[i].objectName == k;
      assert names[i] == k;
    }
  }

  /** The normalised names of a recursive listing of `p` are exactly the keys below `p`. */
  lemma ListedKeys(m: Objects, p: string)
    requires NormalBelow(m, p)
    ensures KeySet(ObjectNames(Listing(m, p, true))) == Under(m, p)
  {
    var names := ObjectNames(Listing(m, p, true));
    ListingNamesBelow(m, p);
    ListingNamesCover(m, p);
    KeySetOfNormal(names);
  }

  /** A delete run that keeps every key outside the normalised paths, failing or not. */
  lemma {:induction false} DeleteEachKeepsOthers(m: Objects, faults: Faults, paths: seq<string>)
    ensures var m' := DeleteEach(m, faults, paths).objects;
      forall k :: k in m && k !in KeySet(paths) ==> k in m' && m'[k] == m[k]
    decreases |paths|
  {
    if paths != [] {
      DeleteEachStep(m, faults, paths);
      DeleteEachKeepsOthers(m, faults, paths[..|paths| - 1]);
      KeySetSnoc(paths);
    }
  }

  /**
   * Deleting the listing of `p` with no failed request removes exactly
   * the keys below `p` the store did not refuse.
   */
  lemma DeleteListingRemovesTree(m: Objects, faults: Faults, p: string)
    requires NormalBelow(m, p)
    requires DeleteEach(m, faults, ObjectNames(Listing(m, p, true))).result.Ok?
    ensures DeleteEach(m, faults, ObjectNames(Listing(m, p, true))).objects == m - Accepted(faults, Under(m, p))
  {
    var names := ObjectNames(Listing(m, p, true));
    DeleteEachRemoves(m, faults, names);
    ListedKeys(m, p);
    assert KeySet(names) == Under(m, p);
  }

  /**
   * A successful `deleteResource` removes exactly the keys below the
   * normalised path (when those keys are in normal form) that the store
   * did not refuse; with no refusal, the whole tree is gone.
   */
  lemma DeleteRemovesTree(m: Objects, faults: Faults, path: string)
    requires NormalBelow(m, Normalize(path))
    requires DeleteResource(m, faults, path).result.Ok?
    ensures DeleteResource(m, faults, path).objects == m - Accepted(faults, Under(m, Normalize(path)))
    ensures (forall k :: faults(DeleteKeyReq(k)) == NoFault) ==>
      DeleteResource(m, faults, path).objects == m - Under(m, Normalize(path))
  {
    var p := Normalize(path);
    DeleteListingRemovesTree(m, faults, p);
    if forall k :: faults(DeleteKeyReq(k)) == NoFault {
      assert Accepted(faults, Under(m, p)) == Under(m, p);
    }
  }

  /**
   * Even a partial deletion only removes keys below the path: every other
   * key stays with its size, and no key is added.
   */
  lemma DeleteStaysInTree(m: Objects, faults: Faults, path: string)
    requires NormalBelow(m, Normalize(path))
    ensures var m' := DeleteResource(m, faults, path).objects;
      m'.Keys <= m.Keys && (forall k :: k in m' ==> m'[k] == m[k]) &&
      forall k :: k in m && !StartsWith(k, Normalize(path)) ==> k in m'
  {
    var p := Normalize(path);
    if faults(ListReq(p, true)) == NoFault {
      var names := ObjectNames(Listing(m, p, true));
      DeleteEachOnlyRemoves(m, faults, names);
      DeleteEachKeepsOthers(m, faults, names);
      ListedKeys(m, p);
    }
  }

  /**
   * A directory created with no failure is visible: `getResource` of the
   * directory finds its marker, empty.
   */
  lemma CreatedDirectoryIsVisible(m: Objects, faults: Faults, postfix: string, path: string)
    requires IsDir(path)
    requires CreateEmptyDirectory(m, faults, postfix, path).result.Ok?
    requires faults(StatReq(Normalize(path + postfix))) == NoFault
    ensures GetResource(CreateEmptyDirectory(m, faults, postfix, path).objects, faults, postfix, path) == Ok(Resource(path, true, 0))
  {
  }
}
