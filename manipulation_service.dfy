/**
 * The manipulation service as an object over a bucket: each operation
 * issues the store requests one by one in loops, as the service does, and
 * is proved to leave the bucket and report the result that the
 * corresponding function of `Manipulation` describes.
 */
module ManipulationServiceImpl {
  import opened Strings
  import opened Errors
  import opened PathUtils
  import opened Store
  import opened Metadata
  import opened Steps
  import opened Manipulation

  // ---------------------------------------------------------------------
  // Loop facts

  /** Once a prefix of a run of creations fails, the whole run ends there. */
  lemma CreateEachPrefixFailure(m: Objects, faults: Faults, paths: seq<string>, n: int)
    requires 0 <= n <= |paths| && CreateEach(m, faults, paths[..n]).result.Err?
    ensures CreateEach(m, faults, paths) == CreateEach(m, faults, paths[..n])
  {
    CreateEachAppend(m, faults, paths[..n], paths[n..]);
    assert paths[..n] + paths[n..] == paths;
  }

  /** Once a prefix of a run of deletes fails, the whole run ends there. */
  lemma DeleteEachPrefixFailure(m: Objects, faults: Faults, paths: seq<string>, n: int)
    requires 0 <= n <= |paths| && DeleteEach(m, faults, paths[..n]).result.Err?
    ensures DeleteEach(m, faults, paths) == DeleteEach(m, faults, paths[..n])
  {
    DeleteEachAppend(m, faults, paths[..n], paths[n..]);
    assert paths[..n] + paths[n..] == paths;
  }

  /** One more put of the upload loop. */
  lemma PutAllStep(m: Objects, faults: Faults, ps: seq<Option<Put>>, i: int, written: seq<string>, mi: Objects)
    requires 0 <= i < |ps| && PutAll(m, faults, ps[..i]) == Batch(written, Ok(()), mi)
    ensures PutAll(m, faults, ps[..i + 1]) ==
      match ps[i]
      case None => Batch(written, Err(InvalidFile), mi)
      case Some(p) =>
        var o := PutKey(mi, faults, p.key, p.size);
        match o.result
        case Err(e) => Batch(written, Err(e), o.objects)
        case Ok(k) => Batch(written + [k], Ok(()), o.objects)
  {
    assert ps[..i + 1][..i] == ps[..i];
  }

  /** Once a prefix of the put loop fails, the whole loop ends there. */
  lemma {:induction false} PutAllKeepsFailure(m: Objects, faults: Faults, ps: seq<Option<Put>>, n: int)
    requires 0 <= n <= |ps| && PutAll(m, faults, ps[..n]).result.Err?
    ensures PutAll(m, faults, ps) == PutAll(m, faults, ps[..n])
    decreases |ps| - n
  {
    if n == |ps| {
      assert ps[..n] == ps;
    } else {
      assert ps[..n + 1][..n] == ps[..n];
      PutAllKeepsFailure(m, faults, ps, n + 1);
    }
  }

  /** Once a prefix of the copy loop fails, the whole loop ends there. */
  lemma {:induction false} CopyAllKeepsFailure(m: Objects, faults: Faults, ps: seq<CopyPlan>, n: int)
    requires 0 <= n <= |ps| && CopyAll(m, faults, ps[..n]).result.Err?
    ensures CopyAll(m, faults, ps) == CopyAll(m, faults, ps[..n])
    decreases |ps| - n
  {
    if n == |ps| {
      assert ps[..n] == ps;
    } else {
      assert ps[..n + 1][..n] == ps[..n];
      CopyAllKeepsFailure(m, faults, ps, n + 1);
    }
  }

  /**
   * The marker loop key by key: the markers of each key's ancestors are
   * written in turn, and the first failure ends the run.
   */
  function MarkersRun(m: Objects, faults: Faults, base: string, keys: seq<string>, postfix: string): Outcome<()>
    decreases |keys|
  {
    if keys == [] then Outcome(Ok(()), m)
    else
      var o := MarkersRun(m, faults, base, keys[..|keys| - 1], postfix);
      if o.result.Err? then o
      else CreateEach(o.objects, faults, WithPostfix(NestedDirectories(base, keys[|keys| - 1]), postfix))
  }

  /** Key by key, the marker loop writes exactly the markers of all the keys, in order. */
  lemma {:induction false} MarkersRunIsCreateEach(m: Objects, faults: Faults, base: string, keys: seq<string>, postfix: string)
    ensures MarkersRun(m, faults, base, keys, postfix) == CreateEach(m, faults, MarkersOf(base, keys, postfix))
    decreases |keys|
  {
    if keys != [] {
      var init := keys[..|keys| - 1];
      MarkersRunIsCreateEach(m, faults, base, init, postfix);
      CreateEachAppend(m, faults, MarkersOf(base, init, postfix), WithPostfix(NestedDirectories(base, keys[|keys| - 1]), postfix));
    }
  }

  /** One more key: the run continues with the markers of that key's ancestors. */
  lemma MarkersRunStep(m: Objects, faults: Faults, base: string, keys: seq<string>, postfix: string, i: int, mi: Objects)
    requires 0 <= i < |keys| && MarkersRun(m, faults, base, keys[..i], postfix) == Outcome(Ok(()), mi)
    ensures MarkersRun(m, faults, base, keys[..i + 1], postfix) ==
      CreateEach(mi, faults, WithPostfix(NestedDirectories(base, keys[i]), postfix))
  {
    assert keys[..i + 1][..i] == keys[..i];
  }

  /** Once the keys of a prefix fail, the whole marker run ends there. */
  lemma {:induction false} MarkersRunKeepsFailure(m: Objects, faults: Faults, base: string, keys: seq<string>, postfix: string, n: int)
    requires 0 <= n <= |keys| && MarkersRun(m, faults, base, keys[..n], postfix).result.Err?
    ensures MarkersRun(m, faults, base, keys, postfix) == MarkersRun(m, faults, base, keys[..n], postfix)
    decreases |keys| - n
  {
    if n == |keys| {
      assert keys[..n] == keys;
    } else {
      assert keys[..n + 1][..n] == keys[..n];
      MarkersRunKeepsFailure(m, faults, base, keys, postfix, n + 1);
    }
  }

  /** What carrying out one plan does to the bucket, and whether it failed. */
  function PlanOutcome(m: Objects, faults: Faults, p: CopyPlan): (o: Outcome<()>)
    ensures p.Refused? ==> o == Outcome(Err(p.error), m)
  {
    match p
    case Refused(e) => Outcome(Err(e), m)
    case Planned(_, _, statKey, source, target) =>
      match KeyExists(m, faults, statKey)
      case Err(e) => Outcome(Err(e), m)
      case Ok(exists_) =>
        if exists_ then Outcome(Err(AlreadyExists), m) else CopyKey(m, faults, source, target)
  }

  /** The copy loop over one more plan: the loop before it, then that plan carried out. */
  lemma CopyAllSnoc(m: Objects, faults: Faults, ps: seq<CopyPlan>)
    requires ps != []
    ensures var c, p := CopyAll(m, faults, ps[..|ps| - 1]), ps[|ps| - 1];
      CopyAll(m, faults, ps) ==
        if c.result.Err? then c
        else
          var o := PlanOutcome(c.objects, faults, p);
          if o.result.Err? then Copying(c.sources, c.targets, o.result, o.objects)
          else Copying(c.sources + [p.name], c.targets + [p.dest], Ok(()), o.objects)
  {
  }

  /**
   * One pass of the copy loop of a directory move, given the loop so far:
   * a success records the listed key and its destination, a failure is
   * where the whole loop ends.
   */
  lemma CopyLoopStep(m: Objects, faults: Faults, items: seq<Item>, postfix: string, from: string, to: string, i: int, c: Copying, o: Outcome<()>)
    requires 0 <= i < |items| && c.result.Ok?
    requires CopyAll(m, faults, Plans(items, postfix, from, to)[..i]) == c
    requires o == PlanOutcome(c.objects, faults, Plan(items[i], postfix, from, to))
    ensures var ps, name := Plans(items, postfix, from, to), items[i].objectName;
      (o.result.Ok? ==>
        |from| <= |name| &&
        CopyAll(m, faults, ps[..i + 1]) == Copying(c.sources + [name], c.targets + [to + name[|from|..]], Ok(()), o.objects)) &&
      (o.result.Err? ==> CopyAll(m, faults, ps) == Copying(c.sources, c.targets, o.result, o.objects))
  {
    var ps := Plans(items, postfix, from, to);
    assert ps[..i + 1][..i] == ps[..i];
    CopyAllSnoc(m, faults, ps[..i + 1]);
    if o.result.Err? {
      CopyAllKeepsFailure(m, faults, ps, i + 1);
    }
  }

  /** Adding the postfix twice is adding it doubled. */
  lemma WithPostfixTwice(dirs: seq<string>, postfix: string)
    ensures WithPostfix(WithPostfix(dirs, postfix), postfix) == WithPostfix(dirs, postfix + postfix)
  {
    forall i | 0 <= i < |dirs| ensures dirs[i] + postfix + postfix == dirs[i] + (postfix + postfix) { }
  }

  // ---------------------------------------------------------------------
  // The service

  /** `deleteObject` of each path in turn, stopping at the first failure. */
  method DeleteAll(store: Bucket, paths: seq<string>) returns (r: Result<()>)
    modifies store
    ensures Outcome(r, store.objects) == DeleteEach(old(store.objects), store.faults, paths)
  {
    ghost var m0 := store.objects;
    var i := 0;
    while i < |paths|
      invariant 0 <= i <= |paths|
      invariant DeleteEach(m0, store.faults, paths[..i]) == Outcome(Ok(()), store.objects)
    {
      assert paths[..i + 1][..i] == paths[..i];
      var d := store.DeleteObjects([paths[i]]);
      if d.Err? {
        DeleteEachPrefixFailure(m0, store.faults, paths, i + 1);
        return d;
      }
      assert d == Ok(()) by { var v: () := d.value; assert v == (); }
      i := i + 1;
    }
    assert paths[..i] == paths;
    r := Ok(());
  }

  /** `createEmptyDirectory` of each directory in turn (its marker, `dir` + postfix), stopping at the first failure. */
  method CreateDirectories(store: Bucket, dirs: seq<string>, postfix: string) returns (r: Result<()>)
    modifies store
    ensures Outcome(r, store.objects) == CreateEach(old(store.objects), store.faults, WithPostfix(dirs, postfix))
  {
    ghost var m0 := store.objects;
    ghost var markers := WithPostfix(dirs, postfix);
    var j := 0;
    while j < |dirs|
      invariant 0 <= j <= |dirs|
      invariant CreateEach(m0, store.faults, markers[..j]) == Outcome(Ok(()), store.objects)
    {
      assert markers[..j + 1][..j] == markers[..j];
      var c := store.CreateEmptyObject(dirs[j] + postfix);
      if c.Err? {
        CreateEachPrefixFailure(m0, store.faults, markers, j + 1);
        return c;
      }
      assert c == Ok(()) by { var v: () := c.value; assert v == (); }
      j := j + 1;
    }
    assert markers[..j] == markers;
    r := Ok(());
  }

  /** The manipulation service over a bucket, for one marker postfix. */
  class ManipulationService {
    const store: Bucket
    const folderPostfix: string

    constructor (store: Bucket, folderPostfix: string)
      ensures this.store == store && this.folderPostfix == folderPostfix
    {
      this.store := store;
      this.folderPostfix := folderPostfix;
    }

    /** `createEmptyDirectory`: the empty marker object of `path`. */
    method CreateEmptyDirectory(path: string) returns (r: Result<()>)
      modifies store
      ensures Outcome(r, store.objects) == Manipulation.CreateEmptyDirectory(old(store.objects), store.faults, folderPostfix, path)
    {
      r := store.CreateEmptyObject(path + folderPostfix);
    }

    /** `createEmptyDirectory` of every directory `getNestedDirectories(base, key)` lists. */
    method CreateAncestors(base: string, key: string) returns (r: Result<()>)
      modifies store
      ensures Outcome(r, store.objects) == CreateEach(old(store.objects), store.faults, WithPostfix(NestedDirectories(base, key), folderPostfix))
    {
      var dirs := GetNestedDirectories(base, key);
      r := CreateDirectories(store, dirs, folderPostfix);
    }

    /** For each key in turn, `createEmptyDirectory` of every directory `getNestedDirectories(base, key)` lists. */
    method CreateMarkers(base: string, keys: seq<string>) returns (r: Result<()>)
      modifies store
      ensures Outcome(r, store.objects) == CreateEach(old(store.objects), store.faults, MarkersOf(base, keys, folderPostfix))
    {
      ghost var m0 := store.objects;
      var i := 0;
      while i < |keys|
        invariant 0 <= i <= |keys|
        invariant MarkersRun(m0, store.faults, base, keys[..i], folderPostfix) == Outcome(Ok(()), store.objects)
      {
        MarkersRunStep(m0, store.faults, base, keys, folderPostfix, i, store.objects);
        var c := CreateAncestors(base, keys[i]);
        if c.Err? {
          MarkersRunKeepsFailure(m0, store.faults, base, keys, folderPostfix, i + 1);
          MarkersRunIsCreateEach(m0, store.faults, base, keys, folderPostfix);
          return c;
        }
        assert c == Ok(()) by { var v: () := c.value; assert v == (); }
        i := i + 1;
      }
      assert keys[..i] == keys;
      MarkersRunIsCreateEach(m0, store.faults, base, keys, folderPostfix);
      r := Ok(());
    }

    /**
     * `uploadResource`: each file put in turn; on a failure the keys
     * written so far are deleted again; on success the ancestor markers
     * are written.
     */
    method UploadResource(path: string, files: seq<Upload>) returns (r: Result<()>)
      modifies store
      ensures Outcome(r, store.objects) == Manipulation.UploadResource(old(store.objects), store.faults, folderPostfix, path, files)
    {
      ghost var m0 := store.objects;
      ghost var ps := Puts(path, files);
      var uploaded: seq<string> := [];
      var i := 0;
      while i < |files|
        invariant 0 <= i <= |files|
        invariant PutAll(m0, store.faults, ps[..i]) == Batch(uploaded, Ok(()), store.objects)
      {
        PutAllStep(m0, store.faults, ps, i, uploaded, store.objects);
        var f := files[i];
        var failure: Result<()> := Ok(());
        if f.name.None? || f.name.value == "" {
          failure := Err(InvalidFile);
        } else {
          var k := store.UploadObject(path, f.name.value, f.size);
          if k.Err? {
            failure := Err(k.error);
          } else {
            uploaded := uploaded + [k.value];
          }
        }
        if failure.Err? {
          PutAllKeepsFailure(m0, store.faults, ps, i + 1);
          var rb := DeleteAll(store, uploaded);
          return if rb.Err? then rb else failure;
        }
        i := i + 1;
      }
      assert ps[..i] == ps;
      r := CreateMarkers(path, uploaded);
    }

    /**
     * `deleteResource`: every key listed below `path` deleted in turn; any
     * failure is a partial deletion.
     */
    method DeleteResource(path: string) returns (r: Result<()>)
      modifies store
      ensures Outcome(r, store.objects) == Manipulation.DeleteResource(old(store.objects), store.faults, path)
    {
      var listed := store.GetListObjects(path, true);
      if listed.Err? {
        return Err(PartialDeletion);
      }
      var d := DeleteAll(store, ObjectNames(listed.value));
      r := if d.Err? then Err(PartialDeletion) else Ok(());
    }

    /** `existsByPath`: a stat of the directory's marker or of the file. */
    method ExistsByPath(path: string) returns (r: Result<bool>)
      ensures r == StatExists(store.objects, store.faults, folderPostfix, path)
    {
      var p := if EndsWith(path, "/") then path + folderPostfix else path;
      var stat := store.GetObject(p);
      r := if stat.Ok? then Ok(true) else if stat.error == NotFound then Ok(false) else Err(stat.error);
    }

    /**
     * `moveFile`: refused if `to` exists; the markers of the ancestors of
     * `to` (with the postfix twice); then stat, copy and delete.
     */
    method MoveFile(from: string, to: string) returns (r: Result<Resource>)
      modifies store
      ensures Outcome(r, store.objects) == Manipulation.MoveFile(old(store.objects), store.faults, folderPostfix, folderPostfix + folderPostfix, from, to)
    {
      var exists_ := ExistsByPath(to);
      if exists_.Err? {
        return Err(exists_.error);
      }
      if exists_.value {
        return Err(AlreadyExists);
      }
      var dirs := GetNestedDirectories("", to);
      WithPostfixTwice(dirs, folderPostfix);
      var c := CreateDirectories(store, WithPostfix(dirs, folderPostfix), folderPostfix);
      if c.Err? {
        return Err(c.error);
      }
      r := TransferFile(from, to);
    }

    /** The stat, copy and delete at the end of `moveFile`. */
    method TransferFile(from: string, to: string) returns (r: Result<Resource>)
      modifies store
      ensures Outcome(r, store.objects) == Transfer(old(store.objects), store.faults, from, to)
    {
      var stat := store.GetObject(from);
      if stat.Err? {
        return Err(stat.error);
      }
      var c := store.Copy(stat.value.key, to);
      if c.Err? {
        return Err(c.error);
      }
      var d := store.DeleteObjects([stat.value.key]);
      if d.Err? {
        return Err(d.error);
      }
      r := Ok(Resource(to, false, stat.value.size));
    }

    /**
     * One pass of the copy loop of `moveDirectory`: the destination of the
     * listed key, checked to be absent, then the copy.
     */
    method CopyItem(item: Item, from: string, to: string) returns (r: Result<()>)
      modifies store
      ensures Outcome(r, store.objects) == PlanOutcome(old(store.objects), store.faults, Plan(item, folderPostfix, from, to))
    {
      var name := item.objectName;
      if |name| < |from| {
        return Err(OutOfBounds);
      }
      var toPath := to + name[|from|..];
      var exists_ := ExistsByPath(toPath);
      if exists_.Err? {
        return Err(exists_.error);
      }
      if exists_.value {
        return Err(AlreadyExists);
      }
      r := store.Copy(name, toPath);
    }

    /**
     * The copy loop of `moveDirectory`: each listed key copied to its
     * destination, which must not exist; the first failure stops it. The
     * keys copied from and to so far come back with the result.
     */
    method CopyListed(items: seq<Item>, from: string, to: string) returns (copiedFrom: seq<string>, copiedTo: seq<string>, r: Result<()>)
      modifies store
      ensures Copying(copiedFrom, copiedTo, r, store.objects) == CopyEach(old(store.objects), store.faults, folderPostfix, from, to, items)
    {
      ghost var m0 := store.objects;
      ghost var ps := Plans(items, folderPostfix, from, to);
      copiedFrom, copiedTo := [], [];
      var i := 0;
      while i < |items|
        invariant 0 <= i <= |items|
        invariant CopyAll(m0, store.faults, ps[..i]) == Copying(copiedFrom, copiedTo, Ok(()), store.objects)
      {
        ghost var mi := store.objects;
        var name := items[i].objectName;
        r := CopyItem(items[i], from, to);
        CopyLoopStep(m0, store.faults, items, folderPostfix, from, to, i, Copying(copiedFrom, copiedTo, Ok(()), mi), Outcome(r, store.objects));
        if r.Err? {
          return;
        }
        copiedFrom := copiedFrom + [name];
        copiedTo := copiedTo + [to + name[|from|..]];
        i := i + 1;
      }
      assert ps[..i] == ps;
      r := Ok(());
    }

    /**
     * `moveDirectory`: the listed keys copied; on a failure the copies are
     * deleted again; then the sources are deleted and the destinations'
     * ancestor markers written.
     */
    method MoveDirectory(from: string, to: string) returns (r: Result<Resource>)
      modifies store
      ensures Outcome(r, store.objects) == Manipulation.MoveDirectory(old(store.objects), store.faults, folderPostfix, from, to)
    {
      var listed := store.GetListObjects(from, true);
      if listed.Err? {
        return Err(listed.error);
      }
      var copiedFrom, copiedTo, c := CopyListed(listed.value, from, to);
      if c.Err? {
        var rb := DeleteAll(store, copiedTo);
        return Err(if rb.Err? then rb.error else c.error);
      }
      var d := DeleteAll(store, copiedFrom);
      if d.Err? {
        return Err(d.error);
      }
      var mk := CreateMarkers("", copiedTo);
      if mk.Err? {
        return Err(mk.error);
      }
      r := Ok(Resource(to, true, 0));
    }

    /** `moveResource`: a directory move when `from` ends in '/', a file move otherwise. */
    method MoveResource(from: string, to: string) returns (r: Result<Resource>)
      modifies store
      ensures Outcome(r, store.objects) == Manipulation.MoveResource(old(store.objects), store.faults, folderPostfix, from, to)
    {
      if EndsWith(from, "/") {
        r := MoveDirectory(from, to);
      } else {
        r := MoveFile(from, to);
      }
    }
  }
}
