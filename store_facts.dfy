/**
 * What the gateway promises about the bucket: conditional upload never
 * overwrites, marker creation is idempotent, copy keeps its source,
 * deleted keys are gone, and listings enumerate exactly the keys below a
 * prefix in listing order.
 */
module StoreFacts {
  import opened Strings
  import opened Errors
  import opened PathUtils
  import opened SortedKeys
  import opened Store

  /**
   * Uploading the same name twice: the second upload is refused (or fails
   * in the client) and the first object keeps its size.
   */
  lemma UploadNeverOverwrites(m: Objects, faults: Faults, path: string, fileName: string, size: nat, size2: nat)
    requires PutOutcome(m, faults, path, fileName, size).result.Ok?
    ensures var o1 := PutOutcome(m, faults, path, fileName, size);
      var o2 := PutOutcome(o1.objects, faults, path, fileName, size2);
      var k := o1.result.value;
      o2.objects == o1.objects && k in o2.objects && o2.objects[k] == size &&
      o2.result == Err(if faults(PutReq(k)) == ClientFailure then StoreError else AlreadyExists)
  {
  }

  /**
   * The key an upload returns holds the uploaded size, and a stat of that
   * key (when it is already normal) finds it.
   */
  lemma UploadedKeyReadsBack(m: Objects, faults: Faults, path: string, fileName: string, size: nat)
    requires PutOutcome(m, faults, path, fileName, size).result.Ok?
    ensures var o := PutOutcome(m, faults, path, fileName, size);
      var k := o.result.value;
      k == Normalize(path + fileName) && k !in m && o.objects == m[k := size] &&
      (Normalize(k) == k && faults(StatReq(k)) == NoFault ==> StatResult(o.objects, faults, k) == Ok(Stat(k, size)))
  {
  }

  /** Creating the same empty object twice is the same as creating it once. */
  lemma CreateIsIdempotent(m: Objects, faults: Faults, path: string)
    ensures var o1 := CreateOutcome(m, faults, path);
      CreateOutcome(o1.objects, faults, path) == o1
  {
    var k := Normalize(path);
    if faults(CreateReq(k)) == NoFault {
      assert m[k := 0][k := 0] == m[k := 0];
    }
  }

  /** Creation overwrites whatever the key held with an empty object and touches nothing else. */
  lemma CreateOverwrites(m: Objects, faults: Faults, path: string)
    requires CreateOutcome(m, faults, path).result.Ok?
    ensures var m' := CreateOutcome(m, faults, path).objects;
      var k := Normalize(path);
      k in m' && m'[k] == 0 && m'.Keys == m.Keys + {k} &&
      forall x :: x in m && x != k ==> m'[x] == m[x]
  {
  }

  /**
   * A successful copy keeps the source, gives the target the source's
   * size and leaves every other key alone; copying a key onto itself is
   * refused.
   */
  lemma CopyKeepsSource(m: Objects, faults: Faults, from: string, to: string)
    ensures var o := CopyOutcome(m, faults, from, to);
      var s, t := Normalize(from), Normalize(to);
      (s == t && faults(CopyReq(s, t)) != ClientFailure ==> o == Outcome(Err(InvalidPath), m)) &&
      (o.result.Ok? ==>
        s != t && s in m && s in o.objects && o.objects[s] == m[s] &&
        t in o.objects && o.objects[t] == m[s] && o.objects.Keys == m.Keys + {t} &&
        forall x :: x in m && x != t ==> o.objects[x] == m[x])
  {
  }

  /** The keys of `paths` are the elements of their normalised sequence. */
  lemma KeySetIsElements(paths: seq<string>)
    ensures KeySet(paths) == Elements(NormalKeys(paths))
  {
    var ks := NormalKeys(paths);
    forall k | k in Elements(ks) ensures k in KeySet(paths) {
      var i :| 0 <= i < |ks| && ks[i] == k;
      assert Normalize(paths[i]) in KeySet(paths);
    }
  }

  /**
   * What the delete requests for `keys` do, failing or not: they only
   * remove keys of `keys` the store accepts, and keep every other key with
   * its size; when every request goes through they remove exactly the
   * accepted keys. Any failure is a store error.
   */
  lemma {:induction false} RemoveBatchesShape(m: Objects, faults: Faults, keys: seq<string>)
    ensures var o := RemoveBatches(m, faults, keys);
      (o.result.Err? ==> o.result.error == StoreError) &&
      (forall k :: k in o.objects ==> k in m && o.objects[k] == m[k]) &&
      (forall k :: k in m && k !in o.objects ==> k in Accepted(faults, Elements(keys))) &&
      (o.result.Ok? ==> o.objects == m - Accepted(faults, Elements(keys)))
    decreases |keys|
  {
    if keys != [] {
      var n := BatchLength(keys);
      var batch := Elements(keys[..n]);
      if faults(DeleteReq(batch)) == NoFault {
        var m1 := m - Accepted(faults, batch);
        RemoveBatchesShape(m1, faults, keys[n..]);
        assert keys == keys[..n] + keys[n..];
        assert Elements(keys) == batch + Elements(keys[n..]);
        assert Accepted(faults, Elements(keys)) == Accepted(faults, batch) + Accepted(faults, Elements(keys[n..]));
      }
    }
  }

  /**
   * After a successful batch delete, exactly the keys the store accepted
   * are gone: a stat of each finds nothing, while a key the store refused
   * and every key not asked for stay with their sizes.
   */
  lemma DeletedKeysAreGone(m: Objects, faults: Faults, paths: seq<string>)
    requires DeleteOutcome(m, faults, paths).result.Ok?
    ensures var m' := DeleteOutcome(m, faults, paths).objects;
      m' == m - Accepted(faults, KeySet(paths)) &&
      (forall i :: 0 <= i < |paths| && faults(DeleteKeyReq(Normalize(paths[i]))) == NoFault ==>
        StatResult(m', faults, paths[i]).Err? &&
        (faults(StatReq(Normalize(paths[i]))) != ClientFailure ==> StatResult(m', faults, paths[i]) == Err(NotFound))) &&
      (forall x :: x in m && (x !in KeySet(paths) || faults(DeleteKeyReq(x)) != NoFault) ==> x in m' && m'[x] == m[x])
  {
    KeySetIsElements(paths);
    RemoveBatchesShape(m, faults, NormalKeys(paths));
    var m' := DeleteOutcome(m, faults, paths).objects;
    forall i | 0 <= i < |paths| && faults(DeleteKeyReq(Normalize(paths[i]))) == NoFault
      ensures Normalize(paths[i]) !in m'
    {
      assert Normalize(paths[i]) in KeySet(paths);
    }
  }

  /**
   * A failed batch delete is a store error that may come after earlier
   * requests went through: it removes only keys asked for and accepted,
   * keeps every other key with its size, and removes nothing when all keys
   * fit in one request.
   */
  lemma FailedDeleteIsPartial(m: Objects, faults: Faults, paths: seq<string>)
    requires DeleteOutcome(m, faults, paths).result.Err?
    ensures var m' := DeleteOutcome(m, faults, paths).objects;
      DeleteOutcome(m, faults, paths).result == Err(StoreError) &&
      (forall k :: k in m' ==> k in m && m'[k] == m[k]) &&
      (forall k :: k in m && k !in m' ==> k in KeySet(paths) && faults(DeleteKeyReq(k)) == NoFault) &&
      (|paths| <= DeleteBatchSize ==> m' == m)
  {
    KeySetIsElements(paths);
    RemoveBatchesShape(m, faults, NormalKeys(paths));
  }

  /**
   * Requests are sent one after the other: when the first request of a
   * delete of more than `DeleteBatchSize` keys goes through, the keys it
   * carried that the store accepted are gone, even if a later request
   * fails.
   */
  lemma EarlierRequestsStayApplied(m: Objects, faults: Faults, paths: seq<string>)
    requires DeleteBatchSize < |paths|
    requires faults(DeleteReq(Elements(NormalKeys(paths)[..DeleteBatchSize]))) == NoFault
    ensures var m' := DeleteOutcome(m, faults, paths).objects;
      forall i :: 0 <= i < DeleteBatchSize && faults(DeleteKeyReq(Normalize(paths[i]))) == NoFault ==>
        Normalize(paths[i]) !in m'
  {
    var keys := NormalKeys(paths);
    var first := Elements(keys[..DeleteBatchSize]);
    RemoveBatchesShape(m - Accepted(faults, first), faults, keys[DeleteBatchSize..]);
    forall i | 0 <= i < DeleteBatchSize && faults(DeleteKeyReq(Normalize(paths[i]))) == NoFault
      ensures Normalize(paths[i]) in Accepted(faults, first)
    {
      assert keys[..DeleteBatchSize][i] == Normalize(paths[i]);
    }
  }

  /**
   * A recursive listing of `p` names every key below `p` exactly once,
   * in listing order, each as an object with its size.
   */
  lemma RecursiveListingIsExact(m: Objects, p: string)
    ensures var l := Listing(m, p, true);
      (forall i :: 0 <= i < |l| ==>
        var n := l[i].objectName;
        n in m && StartsWith(n, p) && !l[i].isDir && l[i].size == m[n]) &&
      (forall k :: k in m && StartsWith(k, p) ==> exists i :: 0 <= i < |l| && l[i].objectName == k) &&
      (forall i, j :: 0 <= i < j < |l| ==> l[i].objectName != l[j].objectName && Below(l[i].objectName, l[j].objectName))
  {
    RecursiveListingEntries(m, p);
    RecursiveListingCovers(m, p);
    ListingIsSortedItems(m, p, true);
    SortedItemsOrdered(m, Under(m, p), {}, Listing(m, p, true));
  }

  /** Each entry of a recursive listing of `p` is a key below `p`, as an object with its size. */
  lemma RecursiveListingEntries(m: Objects, p: string)
    ensures var l := Listing(m, p, true);
      forall i :: 0 <= i < |l| ==>
        var n := l[i].objectName;
        n in m && StartsWith(n, p) && !l[i].isDir && l[i].size == m[n]
  {
    var l := Listing(m, p, true);
    ListingIsSortedItems(m, p, true);
    SortedItemsNames(m, Under(m, p), {}, l);
    forall i | 0 <= i < |l|
      ensures var n := l[i].objectName; n in m && StartsWith(n, p) && !l[i].isDir && l[i].size == m[n]
    {
      assert l[i].objectName in Under(m, p);
    }
  }

  /** Every key below `p` has its entry in a recursive listing of `p`. */
  lemma RecursiveListingCovers(m: Objects, p: string)
    ensures var l := Listing(m, p, true);
      forall k :: k in m && StartsWith(k, p) ==> exists i :: 0 <= i < |l| && l[i].objectName == k
  {
    ListingIsSortedItems(m, p, true);
    SortedItemsCover(m, Under(m, p), {}, Listing(m, p, true));
  }

  /** A common prefix starts with `p`, ends in '/' and has a key below it. */
  lemma PrefixShape(m: Objects, p: string, n: string)
    requires n in Prefixes(m, p)
    ensures StartsWith(n, p) && EndsWith(n, "/") && exists k :: k in m && StartsWith(k, n)
  {
    var k :| k in m && StartsWith(k, p) && '/' in k[|p|..] && n == CommonPrefix(p, k);
    assert n[..|p|] == k[..|p|];
    assert k[..|n|] == n;
    assert n[|n| - 1..] == "/";
  }

  lemma ListingIsSortedItems(m: Objects, p: string, recursive: bool)
    ensures recursive ==> Listing(m, p, true) == Items(m, Sorted(Under(m, p)), {})
    ensures !recursive ==> Listing(m, p, false) == Items(m, Sorted(Direct(m, p) + Prefixes(m, p)), Prefixes(m, p))
  {
  }

  /** The entries for the sorted names of `s` carry those names, in listing order. */
  lemma SortedItemsNames(m: Objects, s: set<string>, dirs: set<string>, l: seq<Item>)
    requires forall n :: n in s ==> n in dirs || n in m
    requires l == Items(m, Sorted(s), dirs)
    ensures forall i :: 0 <= i < |l| ==> l[i].objectName in s
  {
    var names := Sorted(s);
    forall i | 0 <= i < |l| ensures l[i].objectName in s {
      assert names[i] in names;
    }
  }

  /** The entries for the sorted names of `s` come in listing order, each name once. */
  lemma SortedItemsOrdered(m: Objects, s: set<string>, dirs: set<string>, l: seq<Item>)
    requires forall n :: n in s ==> n in dirs || n in m
    requires l == Items(m, Sorted(s), dirs)
    ensures forall i, j :: 0 <= i < j < |l| ==> l[i].objectName != l[j].objectName && Below(l[i].objectName, l[j].objectName)
  {
  }

  /** Every name of `s` has its entry. */
  lemma SortedItemsCover(m: Objects, s: set<string>, dirs: set<string>, l: seq<Item>)
    requires forall n :: n in s ==> n in dirs || n in m
    requires l == Items(m, Sorted(s), dirs)
    ensures forall n :: n in s ==> exists i :: 0 <= i < |l| && l[i].objectName == n
  {
    var names := Sorted(s);
    forall n | n in s ensures exists i :: 0 <= i < |l| && l[i].objectName == n {
      var i :| 0 <= i < |names| && names[i] == n;
      assert l[i].objectName == n;
    }
  }

  /** The names of a non-recursive listing are the direct keys and the common prefixes. */
  lemma DelimitedNames(m: Objects, p: string)
    ensures var l := Listing(m, p, false);
      var s := Direct(m, p) + Prefixes(m, p);
      (forall i :: 0 <= i < |l| ==> l[i].objectName in s) &&
      (forall n :: n in s ==> exists i :: 0 <= i < |l| && l[i].objectName == n) &&
      (forall i, j :: 0 <= i < j < |l| ==> l[i].objectName != l[j].objectName && Below(l[i].objectName, l[j].objectName))
  {
    ListingIsSortedItems(m, p, false);
    SortedItemsNames(m, Direct(m, p) + Prefixes(m, p), Prefixes(m, p), Listing(m, p, false));
    SortedItemsOrdered(m, Direct(m, p) + Prefixes(m, p), Prefixes(m, p), Listing(m, p, false));
    SortedItemsCover(m, Direct(m, p) + Prefixes(m, p), Prefixes(m, p), Listing(m, p, false));
  }

  /**
   * Every entry of a non-recursive listing of `p` is either a key directly
   * below `p`, listed as an object with its size, or a common prefix (up to
   * the next '/') of deeper keys, listed as a directory of size 0.
   */
  lemma DelimitedListingEntries(m: Objects, p: string)
    ensures var l := Listing(m, p, false);
      forall i :: 0 <= i < |l| ==>
        var n := l[i].objectName;
        StartsWith(n, p) &&
        (!l[i].isDir ==> n in m && '/' !in n[|p|..] && l[i].size == m[n]) &&
        (l[i].isDir ==> l[i].size == 0 && EndsWith(n, "/") && exists k :: k in m && StartsWith(k, n))
  {
    var l := Listing(m, p, false);
    DelimitedNames(m, p);
    forall i | 0 <= i < |l|
      ensures var n := l[i].objectName;
        StartsWith(n, p) &&
        (!l[i].isDir ==> n in m && '/' !in n[|p|..] && l[i].size == m[n]) &&
        (l[i].isDir ==> l[i].size == 0 && EndsWith(n, "/") && exists k :: k in m && StartsWith(k, n))
    {
      var n := l[i].objectName;
      if n in Prefixes(m, p) {
        PrefixShape(m, p, n);
      } else {
        assert n in Direct(m, p);
      }
    }
  }

  /**
   * Nothing below `p` is missed: a key directly below `p` is listed as
   * itself, a deeper key through its common prefix; and no name is listed
   * twice, the entries coming in listing order.
   */
  lemma DelimitedListingCovers(m: Objects, p: string)
    ensures var l := Listing(m, p, false);
      (forall k :: k in m && StartsWith(k, p) && '/' !in k[|p|..] ==>
        exists i :: 0 <= i < |l| && l[i] == Item(k, false, m[k])) &&
      (forall k :: k in m && StartsWith(k, p) && '/' in k[|p|..] ==>
        exists i :: 0 <= i < |l| && l[i] == Item(CommonPrefix(p, k), true, 0)) &&
      (forall i, j :: 0 <= i < j < |l| ==> l[i].objectName != l[j].objectName && Below(l[i].objectName, l[j].objectName))
  {
    var l := Listing(m, p, false);
    DelimitedNames(m, p);
    forall k | k in m && StartsWith(k, p) && '/' !in k[|p|..]
      ensures exists i :: 0 <= i < |l| && l[i] == Item(k, false, m[k])
    {
      DirectKeyListed(m, p, k);
    }
    forall k | k in m && StartsWith(k, p) && '/' in k[|p|..]
      ensures exists i :: 0 <= i < |l| && l[i] == Item(CommonPrefix(p, k), true, 0)
    {
      DeeperKeyListed(m, p, k);
    }
  }

  /** A key directly below `p` is listed as an object with its size. */
  lemma DirectKeyListed(m: Objects, p: string, k: string)
    requires k in m && StartsWith(k, p) && '/' !in k[|p|..]
    ensures var l := Listing(m, p, false);
      exists i :: 0 <= i < |l| && l[i] == Item(k, false, m[k])
  {
    var l := Listing(m, p, false);
    assert l == Items(m, ListedNames(m, p, false), Prefixes(m, p));
    DirectHas(m, p, k);
    PrefixesMissDirect(m, p, k);
    var i := ListedNameAt(m, p, k);
    assert l[i] == Item(k, false, m[k]);
  }

  /** A deeper key is listed through its common prefix, a directory of size 0. */
  lemma DeeperKeyListed(m: Objects, p: string, k: string)
    requires k in m && StartsWith(k, p) && '/' in k[|p|..]
    ensures var l := Listing(m, p, false);
      exists i :: 0 <= i < |l| && l[i] == Item(CommonPrefix(p, k), true, 0)
  {
    var l := Listing(m, p, false);
    assert l == Items(m, ListedNames(m, p, false), Prefixes(m, p));
    var c := CommonPrefix(p, k);
    PrefixesHas(m, p, k);
    var i := ListedNameAt(m, p, c);
    assert l[i] == Item(c, true, 0);
  }

  /** Where a direct key or a common prefix of `p` sits in the listing. */
  lemma ListedNameAt(m: Objects, p: string, n: string) returns (i: int)
    requires n in Direct(m, p) + Prefixes(m, p)
    ensures 0 <= i < |Listing(m, p, false)| && Listing(m, p, false)[i].objectName == n
  {
    DelimitedNames(m, p);
    i :| 0 <= i < |Listing(m, p, false)| && Listing(m, p, false)[i].objectName == n;
  }

  lemma DirectHas(m: Objects, p: string, k: string)
    requires k in m && StartsWith(k, p) && '/' !in k[|p|..]
    ensures k in Direct(m, p) + Prefixes(m, p) && k in Direct(m, p)
  {
  }

  lemma PrefixesHas(m: Objects, p: string, k: string)
    requires k in m && StartsWith(k, p) && '/' in k[|p|..]
    ensures CommonPrefix(p, k) in Direct(m, p) + Prefixes(m, p) && CommonPrefix(p, k) in Prefixes(m, p)
  {
  }

  /** A key directly below `p` is never a common prefix: those end in a '/' after `p`. */
  lemma PrefixesMissDirect(m: Objects, p: string, n: string)
    requires n in Direct(m, p)
    ensures n !in Prefixes(m, p)
  {
    forall k | k in m && StartsWith(k, p) && '/' in k[|p|..] ensures CommonPrefix(p, k) != n {
      var c := CommonPrefix(p, k);
      assert c[|p|..][|c| - |p| - 1] == '/';
    }
  }

  lemma StartsWithTrans(k: string, n: string, p: string)
    requires StartsWith(k, n) && StartsWith(n, p)
    ensures StartsWith(k, p)
  {
    assert k[..|p|] == k[..|n|][..|p|];
  }

  /** A listing of `p`, recursive or not, is empty exactly when no key starts with `p`. */
  lemma ListingEmptyIffNoKey(m: Objects, p: string, recursive: bool)
    ensures Listing(m, p, recursive) == [] <==> forall k :: k in m ==> !StartsWith(k, p)
  {
    var l := Listing(m, p, recursive);
    if recursive {
      RecursiveListingIsExact(m, p);
      if l != [] {
        assert l[0].objectName in m && StartsWith(l[0].objectName, p);
      }
    } else {
      DelimitedListingEntries(m, p);
      DelimitedListingCovers(m, p);
      if l != [] {
        var n := l[0].objectName;
        if l[0].isDir {
          var k :| k in m && StartsWith(k, n);
          StartsWithTrans(k, n, p);
        }
      }
      forall k | k in m && StartsWith(k, p) ensures l != [] {
        if '/' in k[|p|..] {
          var i :| 0 <= i < |l| && l[i] == Item(CommonPrefix(p, k), true, 0);
        } else {
          var i :| 0 <= i < |l| && l[i] == Item(k, false, m[k]);
        }
      }
    }
  }
}
