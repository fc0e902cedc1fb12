/**
 * What the read side promises: listings hide exactly the names ending in
 * the postfix and keep the rest in order, a directory is missing exactly
 * when nothing is stored under its marker path, and a stat tells a file
 * from a directory of the same name.
 */
module MetadataFacts {
  import opened Strings
  import opened Errors
  import opened PathUtils
  import opened Store
  import opened StoreFacts
  import opened Metadata

  /** Hiding distributes over concatenation: the filter keeps the listing order. */
  lemma {:induction false} VisibleAppend(a: seq<Item>, b: seq<Item>, postfix: string)
    ensures Visible(a + b, postfix) == Visible(a, postfix) + Visible(b, postfix)
    decreases |b|
  {
    if b == [] {
      assert a + b == a;
    } else {
      assert (a + b)[..|a + b| - 1] == a + b[..|b| - 1];
      VisibleAppend(a, b[..|b| - 1], postfix);
    }
  }

  /** Every entry whose name does not end in the postfix is kept. */
  lemma {:induction false} VisibleKeeps(items: seq<Item>, postfix: string, i: int)
    requires 0 <= i < |items| && !EndsWith(items[i].objectName, postfix)
    ensures AsResource(items[i]) in Visible(items, postfix)
    decreases |items|
  {
    if i < |items| - 1 {
      var init := items[..|items| - 1];
      VisibleKeeps(init, postfix, i);
      assert init[i] == items[i];
    }
  }

  /** Nothing else is reported: every resource comes from an entry, which is not a hidden one. */
  lemma {:induction false} VisibleOnly(items: seq<Item>, postfix: string, j: int)
    requires 0 <= j < |Visible(items, postfix)|
    ensures exists i ::
      0 <= i < |items| && !EndsWith(items[i].objectName, postfix) && Visible(items, postfix)[j] == AsResource(items[i])
    decreases |items|
  {
    var init := items[..|items| - 1];
    var last := items[|items| - 1];
    if j < |Visible(init, postfix)| {
      VisibleOnly(init, postfix, j);
      var i :| 0 <= i < |init| && !EndsWith(init[i].objectName, postfix) && Visible(init, postfix)[j] == AsResource(init[i]);
      assert items[i] == init[i];
    } else {
      assert Visible(items, postfix)[j] == AsResource(items[|items| - 1]);
    }
  }

  /**
   * A directory is reported missing exactly when no key starts with its
   * normalised marker path (the marker itself included).
   */
  lemma ListFilesNotFoundIffEmpty(m: Objects, faults: Faults, postfix: string, path: string, recursive: bool)
    requires IsDir(path) && faults(ListReq(Normalize(path + postfix), false)) == NoFault
    ensures ListFiles(m, faults, postfix, path, recursive) == Err(NotFound) <==>
      forall k :: k in m ==> !StartsWith(k, Normalize(path + postfix))
  {
    ListingEmptyIffNoKey(m, Normalize(path + postfix), false);
  }

  /**
   * A successful `listFiles` reports every entry of the store's listing
   * whose name does not end in the postfix, and nothing else.
   */
  lemma ListFilesHidesExactlyMarkers(m: Objects, faults: Faults, postfix: string, path: string, recursive: bool)
    requires ListFiles(m, faults, postfix, path, recursive).Ok?
    ensures var rs := ListFiles(m, faults, postfix, path, recursive).value;
      var l := Listing(m, Normalize(path), recursive);
      (forall j :: 0 <= j < |rs| ==>
        !EndsWith(rs[j].path, postfix) && exists i :: 0 <= i < |l| && rs[j] == AsResource(l[i])) &&
      (forall i :: 0 <= i < |l| && !EndsWith(l[i].objectName, postfix) ==> AsResource(l[i]) in rs)
  {
    var rs := ListFiles(m, faults, postfix, path, recursive).value;
    var l := Listing(m, Normalize(path), recursive);
    assert rs == Visible(l, postfix);
    forall j | 0 <= j < |rs| ensures exists i :: 0 <= i < |l| && rs[j] == AsResource(l[i]) {
      VisibleOnly(l, postfix, j);
    }
    forall i | 0 <= i < |l| && !EndsWith(l[i].objectName, postfix) ensures AsResource(l[i]) in rs {
      VisibleKeeps(l, postfix, i);
    }
  }

  /**
   * A stat tells the kinds apart: a file path is not found when only the
   * marker of the directory with that name is stored, and a directory path
   * is not found when only a file with its name (without the '/') is stored.
   */
  lemma GetResourceTellsKindsApart(name: string, postfix: string, size: nat, faults: Faults)
    requires !IsDir(name) && Normalize(name) == name && faults(StatReq(name)) == NoFault
    requires Normalize(name + "/" + postfix) == name + "/" + postfix
    requires faults(StatReq(name + "/" + postfix)) == NoFault
    ensures GetResource(map[name + "/" + postfix := 0], faults, postfix, name) == Err(NotFound)
    ensures GetResource(map[name := size], faults, postfix, name + "/") == Err(NotFound)
  {
    assert |name| < |name + "/" + postfix|;
    assert IsDir(name + "/") by {
      assert (name + "/")[|name + "/"| - 1..] == "/";
    }
    assert name + "/" + postfix == (name + "/") + postfix;
  }
}
