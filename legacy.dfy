/**
 * The older repository that predates the split into services. It reads
 * like the services (the stat'ed key as a resource's path, the stat-based
 * existence check, the same search), but writes differently: an upload
 * writes each file's ancestor markers before the file and never rolls
 * back, a file move writes single-postfix markers, and a directory move
 * checks, copies and deletes one listed key at a time, with no rollback
 * and no markers.
 */
module Legacy {
  import opened Strings
  import opened Errors
  import opened PathUtils
  import opened Store
  import opened Metadata
  import opened Steps
  import opened Manipulation
  import opened MoveFacts
  import opened ManipulationServiceImpl
  import Searching = Search

  // ---------------------------------------------------------------------
  // Uploading

  /**
   * One file of an upload: refused without a name; otherwise the markers
   * of the directories in its name (below `path`), then the put at
   * `path` + name, which never overwrites.
   */
  function UploadOne(m: Objects, faults: Faults, postfix: string, path: string, f: Upload): Outcome<()> {
    match f.name
    case None => Outcome(Err(InvalidPath), m)
    case Some(name) =>
      var o := CreateEach(m, faults, WithPostfix(NestedDirectories(path, name), postfix));
      if o.result.Err? then o
      else
        var p := PutOutcome(o.objects, faults, path, name, f.size);
        Outcome(if p.result.Err? then Err(p.result.error) else Ok(()), p.objects)
  }

  /** `upload`: the files in turn; the first failure ends it, with the files before it kept. */
  function UploadAll(m: Objects, faults: Faults, postfix: string, path: string, files: seq<Upload>): Outcome<()>
    decreases |files|
  {
    if files == [] then Outcome(Ok(()), m)
    else
      var o := UploadAll(m, faults, postfix, path, files[..|files| - 1]);
      if o.result.Err? then o else UploadOne(o.objects, faults, postfix, path, files[|files| - 1])
  }

  /** One file's upload keeps every key, with its size or emptied by a marker. */
  lemma UploadOneOnlyAdds(m: Objects, faults: Faults, postfix: string, path: string, f: Upload)
    ensures var m' := UploadOne(m, faults, postfix, path, f).objects;
      m.Keys <= m'.Keys && forall k :: k in m ==> m'[k] == m[k] || m'[k] == 0
  {
    if f.name.Some? {
      var markers := WithPostfix(NestedDirectories(path, f.name.value), postfix);
      var o := CreateEach(m, faults, markers);
      CreateEachOnlyAdds(m, faults, markers);
      if o.result.Ok? {
        var p := PutKey(o.objects, faults, Normalize(path + f.name.value), f.size);
        PutKeyKeeps(o.objects, faults, Normalize(path + f.name.value), f.size);
        assert UploadOne(m, faults, postfix, path, f).objects == p.objects;
      }
    }
  }

  /** A put, failing or not, keeps every key with its size. */
  lemma PutKeyKeeps(m: Objects, faults: Faults, k: string, size: nat)
    ensures var m' := PutKey(m, faults, k, size).objects;
      m.Keys <= m'.Keys && forall x :: x in m ==> m'[x] == m[x]
  {
  }

  /**
   * An upload, failing or not, removes nothing: every key stays, with its
   * size or emptied by a marker.
   */
  lemma {:induction false} UploadOnlyAdds(m: Objects, faults: Faults, postfix: string, path: string, files: seq<Upload>)
    ensures var m' := UploadAll(m, faults, postfix, path, files).objects;
      m.Keys <= m'.Keys && forall k :: k in m ==> m'[k] == m[k] || m'[k] == 0
    decreases |files|
  {
    if files != [] {
      var o := UploadAll(m, faults, postfix, path, files[..|files| - 1]);
      UploadOnlyAdds(m, faults, postfix, path, files[..|files| - 1]);
      UploadOneOnlyAdds(o.objects, faults, postfix, path, files[|files| - 1]);
    }
  }

  /** What the first `n` files left is kept by the rest of the upload. */
  lemma {:induction false} UploadGrows(m: Objects, faults: Faults, postfix: string, path: string, files: seq<Upload>, n: int)
    requires 0 <= n <= |files|
    ensures UploadAll(m, faults, postfix, path, files[..n]).objects.Keys <= UploadAll(m, faults, postfix, path, files).objects.Keys
    decreases |files| - n
  {
    if n == |files| {
      assert files[..n] == files;
    } else {
      UploadGrows(m, faults, postfix, path, files, n + 1);
      assert files[..n + 1][..n] == files[..n];
      var o := UploadAll(m, faults, postfix, path, files[..n]);
      UploadOneOnlyAdds(o.objects, faults, postfix, path, files[n]);
    }
  }

  /** A file that went in is stored at its key, which was absent before. */
  lemma UploadOneStores(m: Objects, faults: Faults, postfix: string, path: string, f: Upload)
    requires UploadOne(m, faults, postfix, path, f).result.Ok?
    ensures f.name.Some?
    ensures var k := Normalize(path + f.name.value);
      k !in m && k in UploadOne(m, faults, postfix, path, f).objects
  {
    var markers := WithPostfix(NestedDirectories(path, f.name.value), postfix);
    var k := Normalize(path + f.name.value);
    var o := CreateEach(m, faults, markers);
    CreateEachOnlyAdds(m, faults, markers);
    assert PutOutcome(o.objects, faults, path, f.name.value, f.size) == PutKey(o.objects, faults, k, f.size);
  }

  /**
   * No rollback: once file `j` went in, it stays, however the upload
   * ends — at its key, which did not exist before the upload.
   */
  lemma UploadKeepsEarlierFiles(m: Objects, faults: Faults, postfix: string, path: string, files: seq<Upload>, j: int)
    requires 0 <= j < |files| && UploadAll(m, faults, postfix, path, files[..j + 1]).result.Ok?
    ensures files[j].name.Some?
    ensures var k := Normalize(path + files[j].name.value);
      k !in m && k in UploadAll(m, faults, postfix, path, files).objects
  {
    var pre := files[..j + 1];
    assert pre[..j] == files[..j] && pre[j] == files[j];
    var o := UploadAll(m, faults, postfix, path, files[..j]);
    assert UploadAll(m, faults, postfix, path, pre) == UploadOne(o.objects, faults, postfix, path, files[j]);
    UploadOneStores(o.objects, faults, postfix, path, files[j]);
    UploadOnlyAdds(m, faults, postfix, path, files[..j]);
    UploadGrows(m, faults, postfix, path, files, j + 1);
  }

  /** Once a prefix of the files fails, the whole upload ends there. */
  lemma {:induction false} UploadKeepsFailure(m: Objects, faults: Faults, postfix: string, path: string, files: seq<Upload>, n: int)
    requires 0 <= n <= |files| && UploadAll(m, faults, postfix, path, files[..n]).result.Err?
    ensures UploadAll(m, faults, postfix, path, files) == UploadAll(m, faults, postfix, path, files[..n])
    decreases |files| - n
  {
    if n == |files| {
      assert files[..n] == files;
    } else {
      assert files[..n + 1][..n] == files[..n];
      UploadKeepsFailure(m, faults, postfix, path, files, n + 1);
    }
  }

  // ---------------------------------------------------------------------
  // Moving

  /**
   * One listed key of a directory move: refused when it cannot be
   * relocated, when its destination exists, or when the copy fails;
   * otherwise copied and then deleted.
   */
  function MoveStep(m: Objects, faults: Faults, p: CopyPlan): Outcome<()> {
    var o := PlanOutcome(m, faults, p);
    if o.result.Err? then o else DeleteOutcome(o.objects, faults, [p.name])
  }

  /** The listed keys moved one at a time; the first failure ends the loop, with the keys before it moved. */
  function MoveEach(m: Objects, faults: Faults, ps: seq<CopyPlan>): Outcome<()>
    decreases |ps|
  {
    if ps == [] then Outcome(Ok(()), m)
    else
      var o := MoveEach(m, faults, ps[..|ps| - 1]);
      if o.result.Err? then o else MoveStep(o.objects, faults, ps[|ps| - 1])
  }

  /** The directory branch of `move`: every key listed below `from`, moved one at a time. */
  function MoveDirectoryOutcome(m: Objects, faults: Faults, postfix: string, from: string, to: string): Outcome<Resource> {
    match ListResult(m, faults, from, true)
    case Err(e) => Outcome(Err(e), m)
    case Ok(items) =>
      var o := MoveEach(m, faults, Plans(items, postfix, from, to));
      Outcome(if o.result.Err? then Err(o.result.error) else Ok(Resource(to, true, 0)), o.objects)
  }

  /**
   * `move`: a directory move when `from` ends in '/'; otherwise a file
   * move whose markers carry the postfix once.
   */
  function MoveOutcome(m: Objects, faults: Faults, postfix: string, from: string, to: string): Outcome<Resource> {
    if EndsWith(from, "/") then MoveDirectoryOutcome(m, faults, postfix, from, to)
    else Manipulation.MoveFile(m, faults, postfix, postfix, from, to)
  }

  /** Moving a key from an absent target keeps the number of keys. */
  lemma MoveKeyCount(o: Objects, s: string, t: string)
    requires s in o && t !in o
    ensures |(o[t := o[s]] - {s}).Keys| == |o.Keys|
    ensures |o[t := o[s]].Keys| == |o.Keys| + 1
  {
    assert o[t := o[s]].Keys == o.Keys + {t};
    assert (o[t := o[s]] - {s}).Keys == o[t := o[s]].Keys - {s};
  }

  /**
   * One key moved: it was present, its destination absent, and the
   * destination now holds its size in its place (the key itself stays
   * when the store refused its delete). Stats must not be answered by an
   * error response, which the existence check reads as "absent".
   */
  lemma MoveStepMoves(m: Objects, faults: Faults, p: CopyPlan)
    requires FileTarget(p) && p.source == Normalize(p.name)
    requires forall k :: faults(StatReq(k)) != ErrorResponse
    requires MoveStep(m, faults, p).result.Ok?
    ensures p.source in m && p.target !in m && p.source != p.target
    ensures MoveStep(m, faults, p).objects == m[p.target := m[p.source]] - Accepted(faults, {p.source})
  {
    var o := PlanOutcome(m, faults, p);
    DeleteOne(o.objects, faults, p.name);
    if faults(DeleteKeyReq(p.source)) == NoFault {
      assert Accepted(faults, {p.source}) == {p.source};
    } else {
      assert Accepted(faults, {p.source}) == {};
    }
  }

  /**
   * What a failing key leaves: nothing changed, or (when its delete
   * failed) the copy made.
   */
  lemma MoveStepFails(m: Objects, faults: Faults, p: CopyPlan)
    requires p.Refused? || (FileTarget(p) && p.source == Normalize(p.name))
    requires forall k :: faults(StatReq(k)) != ErrorResponse
    requires MoveStep(m, faults, p).result.Err?
    ensures var m' := MoveStep(m, faults, p).objects;
      m' == m || (p.Planned? && p.source in m && p.target !in m && m' == m[p.target := m[p.source]])
  {
    if p.Planned? {
      var o := PlanOutcome(m, faults, p);
      if o.result.Ok? {
        DeleteOne(o.objects, faults, p.name);
      }
    }
  }

  /**
   * No key is lost by a move, and each listed key adds at most one (a copy
   * whose source stayed). When the store refuses no delete, keys are
   * neither lost nor duplicated by a move that goes through, and one that
   * fails leaves at most one extra key behind (the copy of the key whose
   * delete failed), since nothing is rolled back.
   */
  lemma {:induction false} MoveEachKeyCount(m: Objects, faults: Faults, ps: seq<CopyPlan>)
    requires forall i :: 0 <= i < |ps| ==> ps[i].Refused? || (FileTarget(ps[i]) && ps[i].source == Normalize(ps[i].name))
    requires forall k :: faults(StatReq(k)) != ErrorResponse
    ensures var o := MoveEach(m, faults, ps);
      |m.Keys| <= |o.objects.Keys| <= |m.Keys| + |ps| &&
      ((forall k :: faults(DeleteKeyReq(k)) == NoFault) ==>
        (o.result.Ok? ==> |o.objects.Keys| == |m.Keys|) &&
        (o.result.Err? ==> |o.objects.Keys| <= |m.Keys| + 1))
    decreases |ps|
  {
    if ps != [] {
      var init := ps[..|ps| - 1];
      var p := ps[|ps| - 1];
      var o0 := MoveEach(m, faults, init);
      MoveEachKeyCount(m, faults, init);
      if o0.result.Ok? {
        MoveStepKeyCount(o0.objects, faults, p);
      }
    }
  }

  /** One key of a move adds at most one key, and none when it goes through and its delete is not refused. */
  lemma MoveStepKeyCount(m: Objects, faults: Faults, p: CopyPlan)
    requires p.Refused? || (FileTarget(p) && p.source == Normalize(p.name))
    requires forall k :: faults(StatReq(k)) != ErrorResponse
    ensures var o := MoveStep(m, faults, p);
      |m.Keys| <= |o.objects.Keys| <= |m.Keys| + 1 &&
      (o.result.Ok? && p.Planned? && faults(DeleteKeyReq(p.source)) == NoFault ==> |o.objects.Keys| == |m.Keys|)
  {
    var o := MoveStep(m, faults, p);
    if o.result.Ok? {
      MoveStepMoves(m, faults, p);
      MoveKeyCount(m, p.source, p.target);
      if faults(DeleteKeyReq(p.source)) == NoFault {
        assert Accepted(faults, {p.source}) == {p.source};
      } else {
        assert Accepted(faults, {p.source}) == {};
        assert o.objects == m[p.target := m[p.source]];
      }
    } else {
      MoveStepFails(m, faults, p);
      if o.objects != m {
        MoveKeyCount(m, p.source, p.target);
      }
    }
  }

  /**
   * A directory move over keys that relocate to file paths keeps the
   * number of keys when it goes through, and adds at most one when it
   * fails.
   */
  lemma MoveDirectoryKeyCount(m: Objects, faults: Faults, postfix: string, from: string, to: string)
    requires forall k :: faults(StatReq(k)) != ErrorResponse
    requires ListResult(m, faults, from, true).Ok?
    requires var items := ListResult(m, faults, from, true).value;
      forall i :: 0 <= i < |items| ==> Movable(from, items[i].objectName)
    ensures var o := MoveDirectoryOutcome(m, faults, postfix, from, to);
      |m.Keys| <= |o.objects.Keys| <= |m.Keys| + |ListResult(m, faults, from, true).value| &&
      ((forall k :: faults(DeleteKeyReq(k)) == NoFault) ==>
        (o.result.Ok? ==> |o.objects.Keys| == |m.Keys|) &&
        (o.result.Err? ==> |o.objects.Keys| <= |m.Keys| + 1))
  {
    var items := ListResult(m, faults, from, true).value;
    PlansOfMovable(items, postfix, from, to);
    MoveEachKeyCount(m, faults, Plans(items, postfix, from, to));
  }

  /** Once a prefix of the keys fails, the whole move ends there. */
  lemma {:induction false} MoveEachKeepsFailure(m: Objects, faults: Faults, ps: seq<CopyPlan>, n: int)
    requires 0 <= n <= |ps| && MoveEach(m, faults, ps[..n]).result.Err?
    ensures MoveEach(m, faults, ps) == MoveEach(m, faults, ps[..n])
    decreases |ps| - n
  {
    if n == |ps| {
      assert ps[..n] == ps;
    } else {
      assert ps[..n + 1][..n] == ps[..n];
      MoveEachKeepsFailure(m, faults, ps, n + 1);
    }
  }

  /**
   * One pass of the loop of a directory move, given the loop so far: a
   * success continues it, a failure is where the whole loop ends.
   */
  lemma MoveLoopStep(m: Objects, faults: Faults, items: seq<Item>, postfix: string, from: string, to: string, i: int, mi: Objects, o: Outcome<()>)
    requires 0 <= i < |items|
    requires MoveEach(m, faults, Plans(items, postfix, from, to)[..i]) == Outcome(Ok(()), mi)
    requires o == MoveStep(mi, faults, Plan(items[i], postfix, from, to))
    ensures var ps := Plans(items, postfix, from, to);
      (o.result.Ok? ==> MoveEach(m, faults, ps[..i + 1]) == o) &&
      (o.result.Err? ==> MoveEach(m, faults, ps) == o)
  {
    var ps := Plans(items, postfix, from, to);
    assert ps[..i + 1][..i] == ps[..i];
    if o.result.Err? {
      MoveEachKeepsFailure(m, faults, ps, i + 1);
    }
  }

  // ---------------------------------------------------------------------
  // The repository

  /** The older repository over a bucket, for one marker postfix. */
  class LegacyRepository {
    const store: Bucket
    const folderPostfix: string

    constructor (store: Bucket, folderPostfix: string)
      ensures this.store == store && this.folderPostfix == folderPostfix
    {
      this.store := store;
      this.folderPostfix := folderPostfix;
    }

    /** `getResource`: the stat'ed key, a directory's marker key included. */
    method GetResource(path: string) returns (r: Result<Resource>)
      ensures r == GetStatedResource(store.objects, store.faults, folderPostfix, path)
    {
      var isDir := EndsWith(path, "/");
      var stat := store.GetObject(if isDir then path + folderPostfix else path);
      r := if stat.Err? then Err(stat.error) else Ok(Resource(stat.value.key, isDir, stat.value.size));
    }

    /** `existsByPath`: a stat of the directory's marker or of the file. */
    method ExistsByPath(path: string) returns (r: Result<bool>)
      ensures r == StatExists(store.objects, store.faults, folderPostfix, path)
    {
      var p := if EndsWith(path, "/") then path + folderPostfix else path;
      var stat := store.GetObject(p);
      r := if stat.Ok? then Ok(true) else if stat.error == NotFound then Ok(false) else Err(stat.error);
    }

    /** `listResources`: refused unless the path exists; the listing with markers hidden. */
    method ListResources(path: string, recursive: bool) returns (r: Result<seq<Resource>>)
      ensures r == Metadata.ListResources(store.objects, store.faults, folderPostfix, path, recursive)
    {
      var present := ExistsByPath(path);
      if present.Err? {
        return Err(present.error);
      }
      if !present.value {
        return Err(NotFound);
      }
      var listed := store.GetListObjects(path, recursive);
      if listed.Err? {
        return Err(listed.error);
      }
      r := Ok(Visible(listed.value, folderPostfix));
    }

    /** `createEmptyDirectory`: the empty marker object of `path`. */
    method CreateEmptyDirectory(path: string) returns (r: Result<()>)
      modifies store
      ensures Outcome(r, store.objects) == Manipulation.CreateEmptyDirectory(old(store.objects), store.faults, folderPostfix, path)
    {
      r := store.CreateEmptyObject(path + folderPostfix);
    }

    /**
     * `createMissingDirectories(path, additionDir)`: the marker of each
     * directory in `additionDir`, below `path`, shortest first.
     */
    method CreateMissingDirectories(path: string, additionDir: string) returns (r: Result<()>)
      modifies store
      ensures Outcome(r, store.objects) ==
        CreateEach(old(store.objects), store.faults, WithPostfix(NestedDirectories(path, additionDir), folderPostfix))
    {
      var dirs := GetNestedDirectories(path, additionDir);
      r := CreateDirectories(store, dirs, folderPostfix);
    }

    /** `upload`: per file, its markers and then the file; no rollback. */
    method Upload(path: string, files: seq<Upload>) returns (r: Result<()>)
      modifies store
      ensures Outcome(r, store.objects) == UploadAll(old(store.objects), store.faults, folderPostfix, path, files)
    {
      ghost var m0 := store.objects;
      var i := 0;
      while i < |files|
        invariant 0 <= i <= |files|
        invariant UploadAll(m0, store.faults, folderPostfix, path, files[..i]) == Outcome(Ok(()), store.objects)
      {
        assert files[..i + 1][..i] == files[..i];
        var f := files[i];
        r := Ok(());
        if f.name.None? {
          r := Err(InvalidPath);
        } else {
          r := CreateMissingDirectories(path, f.name.value);
          if r.Ok? {
            var k := store.UploadObject(path, f.name.value, f.size);
            r := if k.Err? then Err(k.error) else Ok(());
          }
        }
        if r.Err? {
          UploadKeepsFailure(m0, store.faults, folderPostfix, path, files, i + 1);
          return;
        }
        assert r == Ok(()) by { var v: () := r.value; assert v == (); }
        i := i + 1;
      }
      assert files[..i] == files;
      r := Ok(());
    }

    /** `delete`: every key listed below `path` deleted in turn; any failure is a partial deletion. */
    method Delete(path: string) returns (r: Result<()>)
      modifies store
      ensures Outcome(r, store.objects) == Manipulation.DeleteResource(old(store.objects), store.faults, path)
    {
      var listed := store.GetListObjects(path, true);
      if listed.Err? {
        return Err(PartialDeletion);
      }
      var d := DeleteAll(store, ObjectNames(listed.value));
      r := if d.Err? then Err(PartialDeletion) else Ok(());
    }

    /** `search`: the recursive listing of `path`, searched by name. */
    method Search(path: string, query: string) returns (r: Result<seq<Resource>>)
      ensures r == Searching.Search(store.objects, store.faults, folderPostfix, path, query)
    {
      var listed := store.GetListObjects(path, true);
      if listed.Err? {
        return Err(listed.error);
      }
      r := Searching.Scan(listed.value, folderPostfix, path, query);
    }

    /** One listed key of a directory move: checked, copied, then deleted. */
    method MoveItem(item: Item, from: string, to: string) returns (r: Result<()>)
      modifies store
      ensures Outcome(r, store.objects) == MoveStep(old(store.objects), store.faults, Plan(item, folderPostfix, from, to))
    {
      var name := item.objectName;
      if |name| < |from| {
        return Err(OutOfBounds);
      }
      var toPath := to + name[|from|..];
      var exists_ := ExistsByPath(toPath);
      if exists_.Err? {
        return Err(exists_.error);
      }
      if exists_.value {
        return Err(AlreadyExists);
      }
      r := store.Copy(name, toPath);
      if r.Err? {
        return;
      }
      r := store.DeleteObjects([name]);
    }

    /** The directory branch of `move`. */
    method MoveDirectory(from: string, to: string) returns (r: Result<Resource>)
      modifies store
      ensures Outcome(r, store.objects) == MoveDirectoryOutcome(old(store.objects), store.faults, folderPostfix, from, to)
    {
      var listed := store.GetListObjects(from, true);
      if listed.Err? {
        return Err(listed.error);
      }
      var d := MoveItems(listed.value, from, to);
      r := if d.Err? then Err(d.error) else Ok(Resource(to, true, 0));
    }

    /** The loop of the directory branch of `move` over the listed keys. */
    method MoveItems(items: seq<Item>, from: string, to: string) returns (r: Result<()>)
      modifies store
      ensures Outcome(r, store.objects) == MoveEach(old(store.objects), store.faults, Plans(items, folderPostfix, from, to))
    {
      ghost var m0 := store.objects;
      var i := 0;
      while i < |items|
        invariant 0 <= i <= |items|
        invariant MoveEach(m0, store.faults, Plans(items, folderPostfix, from, to)[..i]) == Outcome(Ok(()), store.objects)
      {
        ghost var mi := store.objects;
        r := MoveItem(items[i], from, to);
        MoveLoopStep(m0, store.faults, items, folderPostfix, from, to, i, mi, Outcome(r, store.objects));
        if r.Err? {
          return;
        }
        assert r == Ok(()) by { var v: () := r.value; assert v == (); }
        i := i + 1;
      }
      assert Plans(items, folderPostfix, from, to)[..i] == Plans(items, folderPostfix, from, to);
      r := Ok(());
    }

    /** The file branch of `move`: refused over an existing target; markers, then stat, copy, delete. */
    method MoveFile(from: string, to: string) returns (r: Result<Resource>)
      modifies store
      ensures Outcome(r, store.objects) == Manipulation.MoveFile(old(store.objects), store.faults, folderPostfix, folderPostfix, from, to)
    {
      var exists_ := ExistsByPath(to);
      if exists_.Err? {
        return Err(exists_.error);
      }
      if exists_.value {
        return Err(AlreadyExists);
      }
      var c := CreateMissingDirectories("", to);
      if c.Err? {
        return Err(c.error);
      }
      var stat := store.GetObject(from);
      if stat.Err? {
        return Err(stat.error);
      }
      var cp := store.Copy(stat.value.key, to);
      if cp.Err? {
        return Err(cp.error);
      }
      var d := store.DeleteObjects([stat.value.key]);
      if d.Err? {
        return Err(d.error);
      }
      r := Ok(Resource(to, false, stat.value.size));
    }

    /** `move`: by the kind of `from`. */
    method Move(from: string, to: string) returns (r: Result<Resource>)
      modifies store
      ensures Outcome(r, store.objects) == MoveOutcome(old(store.objects), store.faults, folderPostfix, from, to)
    {
      if EndsWith(from, "/") {
        r := MoveDirectory(from, to);
      } else {
        r := MoveFile(from, to);
      }
    }
  }
}
