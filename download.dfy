/**
 * Downloading: a file path streams the object itself; a directory path
 * (ending in '/') streams a zip archive with one entry per key below it,
 * each named relative to the directory, markers becoming directory
 * entries. The archive is written by a background worker whose failures
 * end the archive early and are never reported to the caller.
 */
module Download {
  import opened Strings
  import opened Errors
  import opened PathUtils
  import opened Store
  import opened StoreFacts

  /** One zip entry: its name and the size of the object copied into it. */
  datatype Entry = Entry(name: string, size: nat)

  /** The archive as written: its entries, and whether the worker got to the end. */
  datatype Archive = Archive(entries: seq<Entry>, complete: bool)

  /** What `downloadResource` hands back. */
  datatype Download = Raw(stat: Stat) | Zipped(archive: Archive)

  /**
   * The entry name of key `name` in the archive of `root`: the first
   * `|root|` characters dropped, and a trailing postfix too. Taking a
   * substring whose start lies past its end fails.
   */
  function EntryName(name: string, root: string, postfix: string): (r: Result<string>)
    ensures var end := if EndsWith(name, postfix) then |name| - |postfix| else |name|;
      (r.Ok? <==> |root| <= end) && (r.Ok? ==> r.value == name[|root|..end]) && (r.Err? ==> r.error == OutOfBounds)
  {
    if EndsWith(name, postfix) then
      if |root| <= |name| - |postfix| then Ok(name[|root|..|name| - |postfix|]) else Err(OutOfBounds)
    else if |root| <= |name| then Ok(name[|root|..]) else Err(OutOfBounds)
  }

  /** The entry for one listed key: the object downloaded, then its entry name. */
  function EntryFor(m: Objects, faults: Faults, item: Item, root: string, postfix: string): Result<Entry> {
    match DownloadResult(m, faults, item.objectName)
    case Err(e) => Err(e)
    case Ok(stat) =>
      match EntryName(item.objectName, root, postfix)
      case Err(e) => Err(e)
      case Ok(n) => Ok(Entry(n, stat.size))
  }

  function EntryNames(entries: seq<Entry>): (r: set<string>)
    ensures forall i :: 0 <= i < |entries| ==> entries[i].name in r
  {
    set i | 0 <= i < |entries| :: entries[i].name
  }

  /** The entry (or the failure) of each listed key, in listing order. */
  function EntriesFor(m: Objects, faults: Faults, items: seq<Item>, root: string, postfix: string): (rs: seq<Result<Entry>>)
    ensures |rs| == |items|
    ensures forall i :: 0 <= i < |items| ==> rs[i] == EntryFor(m, faults, items[i], root, postfix)
  {
    seq(|items|, i requires 0 <= i < |items| => EntryFor(m, faults, items[i], root, postfix))
  }

  /**
   * The worker's loop over the listed keys: each key's entry is added in
   * turn; the first download failure, bad substring or entry name already
   * written (the zip stream refuses duplicates) ends the archive.
   */
  function Pack(rs: seq<Result<Entry>>): (a: Archive)
    ensures |a.entries| <= |rs|
  {
    if rs == [] then Archive([], true)
    else
      var a := Pack(rs[..|rs| - 1]);
      if !a.complete then a
      else
        match rs[|rs| - 1]
        case Err(_) => Archive(a.entries, false)
        case Ok(e) =>
          if e.name in EntryNames(a.entries) then Archive(a.entries, false)
          else Archive(a.entries + [e], true)
  }

  /**
   * `downloadAsZip`: the root is the normalised path; the worker lists the
   * root recursively (normalising it once more) and packs what it lists. A
   * failed listing yields an empty, unfinished archive.
   */
  function Zip(m: Objects, faults: Faults, postfix: string, path: string): Archive {
    var root := Normalize(path);
    match ListResult(m, faults, root, true)
    case Err(_) => Archive([], false)
    case Ok(items) => Pack(EntriesFor(m, faults, items, root, postfix))
  }

  /** `downloadResource`: a zip for a directory path, the object itself otherwise. */
  function DownloadResource(m: Objects, faults: Faults, postfix: string, path: string): (r: Result<Download>)
    ensures EndsWith(path, "/") ==> r.Ok? && r.value.Zipped?
    ensures !EndsWith(path, "/") ==> r == match DownloadResult(m, faults, path) case Ok(s) => Ok(Raw(s)) case Err(e) => Err(e)
  {
    if EndsWith(path, "/") then Ok(Zipped(Zip(m, faults, postfix, path)))
    else
      match DownloadResult(m, faults, path)
      case Err(e) => Err(e)
      case Ok(stat) => Ok(Raw(stat))
  }

  // ---------------------------------------------------------------------
  // Properties

  /**
   * Entry names invert the key layout: for a key below the root, the root,
   * the entry name and (for a marker) the postfix put back together give
   * the key.
   */
  lemma EntryNameRoundTrip(name: string, root: string, postfix: string)
    requires StartsWith(name, root) && EntryName(name, root, postfix).Ok?
    ensures root + EntryName(name, root, postfix).value + (if EndsWith(name, postfix) then postfix else "") == name
  {
    var n := EntryName(name, root, postfix).value;
    if EndsWith(name, postfix) {
      assert name == name[..|root|] + name[|root|..|name| - |postfix|] + name[|name| - |postfix|..];
    } else {
      assert name == name[..|root|] + name[|root|..];
    }
  }

  /** A key built from the root, a relative name and optionally the postfix gives back that name. */
  lemma EntryNameOfLayout(root: string, rel: string, postfix: string)
    requires !EndsWith(root + rel, postfix)
    ensures EntryName(root + rel, root, postfix) == Ok(rel)
    ensures EntryName(root + rel + postfix, root, postfix) == Ok(rel)
  {
    var key := root + rel + postfix;
    assert key[|key| - |postfix|..] == postfix;
    assert key[|root|..|key| - |postfix|] == rel;
    assert (root + rel)[|root|..] == rel;
  }

  /** The root's own marker becomes the entry with the empty name. */
  lemma RootMarkerIsEmptyEntry(root: string, postfix: string)
    ensures EntryName(root + postfix, root, postfix) == Ok("")
  {
    var key := root + postfix;
    assert key[|key| - |postfix|..] == postfix;
    assert key[|root|..|key| - |postfix|] == "";
  }

  /** Every written entry is the entry of the listed key at the same position. */
  lemma {:induction false} PackEntry(rs: seq<Result<Entry>>, i: int)
    requires 0 <= i < |Pack(rs).entries|
    ensures rs[i] == Ok(Pack(rs).entries[i])
    decreases |rs|
  {
    var init := rs[..|rs| - 1];
    var a := Pack(init);
    if i < |a.entries| {
      PackEntry(init, i);
      assert init[i] == rs[i];
    } else {
      PackStops(init);
    }
  }

  /**
   * The archive is complete exactly when every listed key got its entry;
   * an unfinished archive stopped at the key after its last entry, whose
   * download or name failed or whose name was already written.
   */
  lemma {:induction false} PackStops(rs: seq<Result<Entry>>)
    ensures var a := Pack(rs);
      (a.complete <==> |a.entries| == |rs|) &&
      (!a.complete ==> rs[|a.entries|].Err? || rs[|a.entries|].value.name in EntryNames(a.entries))
    decreases |rs|
  {
    if rs != [] {
      var init := rs[..|rs| - 1];
      PackStops(init);
      var a := Pack(init);
      if !a.complete {
        assert init[|a.entries|] == rs[|a.entries|];
      }
    }
  }

  /** No two entries of an archive share a name. */
  lemma {:induction false} PackNamesDistinct(rs: seq<Result<Entry>>, i: int, j: int)
    requires 0 <= i < j < |Pack(rs).entries|
    ensures Pack(rs).entries[i].name != Pack(rs).entries[j].name
    decreases |rs|
  {
    var init := rs[..|rs| - 1];
    var a := Pack(init);
    if j < |a.entries| {
      PackNamesDistinct(init, i, j);
    } else {
      assert a.entries[i].name in EntryNames(a.entries);
    }
  }

  /**
   * Every entry packed from the recursive listing of `root` names a key
   * below `root`: the root, the entry name and, for a marker, the postfix
   * make up a key of the bucket.
   */
  lemma PackedEntryIsKey(m: Objects, faults: Faults, root: string, postfix: string, i: int)
    requires 0 <= i < |Pack(EntriesFor(m, faults, Listing(m, root, true), root, postfix)).entries|
    ensures var e := Pack(EntriesFor(m, faults, Listing(m, root, true), root, postfix)).entries[i];
      exists k :: k in m && StartsWith(k, root) && root + e.name + (if EndsWith(k, postfix) then postfix else "") == k
  {
    var items := Listing(m, root, true);
    var rs := EntriesFor(m, faults, items, root, postfix);
    PackEntry(rs, i);
    RecursiveListingIsExact(m, root);
    var k := items[i].objectName;
    EntryNameRoundTrip(k, root, postfix);
  }

  /**
   * Every entry of a directory's archive names a key below the directory
   * (when the directory's path is already in normal form).
   */
  lemma ZipEntryIsKeyBelowRoot(m: Objects, faults: Faults, postfix: string, path: string, i: int)
    requires Normalize(Normalize(path)) == Normalize(path)
    requires 0 <= i < |Zip(m, faults, postfix, path).entries|
    ensures var root, e := Normalize(path), Zip(m, faults, postfix, path).entries[i];
      exists k :: k in m && StartsWith(k, root) && root + e.name + (if EndsWith(k, postfix) then postfix else "") == k
  {
    PackedEntryIsKey(m, faults, Normalize(path), postfix, i);
  }
}
