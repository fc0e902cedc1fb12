/**
 * What an upload guarantees: files are never written over existing keys,
 * a failed upload leaves the bucket as it was (when its rollback goes
 * through), and a successful one holds every file and the markers of
 * their ancestor directories.
 */
module UploadFacts {
  import opened Errors
  import opened PathUtils
  import opened Store
  import opened Steps
  import opened Manipulation

  /**
   * The put loop only adds keys that were absent, and keeps every key it
   * found with its size.
   */
  lemma {:induction false} PutAllShape(m: Objects, faults: Faults, ps: seq<Option<Put>>)
    ensures var b := PutAll(m, faults, ps);
      (forall k :: k in m ==> k in b.objects && b.objects[k] == m[k]) &&
      (forall k :: k in b.objects ==> k in m || k in b.written) &&
      (forall k :: k in b.written ==> k in b.objects && k !in m)
    decreases |ps|
  {
    if ps != [] {
      var b0 := PutAll(m, faults, ps[..|ps| - 1]);
      PutAllShape(m, faults, ps[..|ps| - 1]);
      if b0.result.Ok? && ps[|ps| - 1].Some? {
        var p := ps[|ps| - 1].value;
        var o := PutKey(b0.objects, faults, p.key, p.size);
        assert o.result.Ok? ==> o.result.value == p.key && p.key !in b0.objects && o.objects == b0.objects[p.key := p.size];
        assert o.result.Err? ==> o.objects == b0.objects;
      }
    }
  }

  /** The loop succeeds exactly when it wrote every put; a failure stopped it before the end. */
  lemma {:induction false} PutAllCount(m: Objects, faults: Faults, ps: seq<Option<Put>>)
    ensures var b := PutAll(m, faults, ps);
      (b.result.Ok? ==> |b.written| == |ps|) && (b.result.Err? ==> |b.written| < |ps|)
    decreases |ps|
  {
    if ps != [] {
      PutAllCount(m, faults, ps[..|ps| - 1]);
    }
  }

  /** The i-th written key is the key of the i-th put, and holds its size. */
  lemma {:induction false} PutAllWritten(m: Objects, faults: Faults, ps: seq<Option<Put>>, i: int)
    requires 0 <= i < |PutAll(m, faults, ps).written|
    ensures var b := PutAll(m, faults, ps);
      ps[i].Some? && b.written[i] == ps[i].value.key &&
      b.written[i] in b.objects && b.objects[b.written[i]] == ps[i].value.size
    decreases |ps|
  {
    var init := ps[..|ps| - 1];
    var b0 := PutAll(m, faults, init);
    PutAllCount(m, faults, init);
    if i < |b0.written| {
      PutAllWritten(m, faults, init, i);
      assert init[i] == ps[i];
    }
  }

  /** The upload loop only adds absent keys and keeps every existing key with its size. */
  lemma PutEachShape(m: Objects, faults: Faults, path: string, files: seq<Upload>)
    ensures var b := PutEach(m, faults, path, files);
      (forall k :: k in m ==> k in b.objects && b.objects[k] == m[k]) &&
      (forall k :: k in b.objects ==> k in m || k in b.written) &&
      (forall k :: k in b.written ==> k in b.objects && k !in m)
  {
    PutAllShape(m, faults, Puts(path, files));
  }

  /** The upload loop succeeds exactly when it wrote every file. */
  lemma PutEachCount(m: Objects, faults: Faults, path: string, files: seq<Upload>)
    ensures var b := PutEach(m, faults, path, files);
      (b.result.Ok? ==> |b.written| == |files|) && (b.result.Err? ==> |b.written| < |files|)
  {
    PutAllCount(m, faults, Puts(path, files));
  }

  /** The i-th written key is the normalised key of the i-th file, and holds its size. */
  lemma PutEachWritten(m: Objects, faults: Faults, path: string, files: seq<Upload>, i: int)
    requires 0 <= i < |PutEach(m, faults, path, files).written|
    ensures var b := PutEach(m, faults, path, files);
      NamePresent(files[i]) && b.written[i] == Normalize(path + files[i].name.value) &&
      b.written[i] in b.objects && b.objects[b.written[i]] == files[i].size
  {
    PutAllWritten(m, faults, Puts(path, files), i);
  }

  /**
   * All or nothing: when a file cannot be written, the files written
   * before it are deleted again, so every key of the bucket keeps its
   * size and the only keys left over are written ones whose delete the
   * store refused; with no refusal the bucket is as before. This holds
   * provided the delete requests go through and the written keys are
   * settled (the key the store reports is the key a delete removes).
   */
  lemma UploadIsAllOrNothing(m: Objects, faults: Faults, postfix: string, path: string, files: seq<Upload>)
    requires PutEach(m, faults, path, files).result.Err?
    requires forall ks :: faults(DeleteReq(ks)) == NoFault
    requires forall i :: 0 <= i < |files| && NamePresent(files[i]) ==> Settled(path + files[i].name.value)
    ensures var o := UploadResource(m, faults, postfix, path, files);
      o.result == PutEach(m, faults, path, files).result &&
      (forall k :: k in m ==> k in o.objects && o.objects[k] == m[k]) &&
      (forall k :: k in o.objects && k !in m ==> faults(DeleteKeyReq(k)) != NoFault) &&
      ((forall k :: faults(DeleteKeyReq(k)) == NoFault) ==> o.objects == m)
  {
    var b := PutEach(m, faults, path, files);
    PutEachShape(m, faults, path, files);
    DeleteEachSucceeds(b.objects, faults, b.written);
    DeleteEachRemoves(b.objects, faults, b.written);
    forall i | 0 <= i < |b.written| ensures Normalize(b.written[i]) == b.written[i] {
      PutEachWritten(m, faults, path, files, i);
    }
    KeySetOfNormal(b.written);
    var rest := b.objects - Accepted(faults, KeySet(b.written));
    assert UploadResource(m, faults, postfix, path, files) == Outcome(b.result, rest);
    if forall k :: faults(DeleteKeyReq(k)) == NoFault {
      assert rest.Keys == m.Keys;
      assert rest == m;
    }
  }

  /** A successful upload went through every file and every marker. */
  lemma UploadOkParts(m: Objects, faults: Faults, postfix: string, path: string, files: seq<Upload>)
    requires UploadResource(m, faults, postfix, path, files).result.Ok?
    ensures var b := PutEach(m, faults, path, files);
      b.result.Ok? && |b.written| == |files| &&
      CreateEach(b.objects, faults, MarkersOf(path, b.written, postfix)) == UploadResource(m, faults, postfix, path, files)
  {
    PutEachCount(m, faults, path, files);
  }

  /**
   * After a successful upload every file is stored at its normalised key,
   * which did not exist before; the key holds the file's size unless a
   * marker written afterwards landed on it.
   */
  lemma UploadKeepsFiles(m: Objects, faults: Faults, postfix: string, path: string, files: seq<Upload>, i: int)
    requires UploadResource(m, faults, postfix, path, files).result.Ok?
    requires 0 <= i < |files|
    ensures var m' := UploadResource(m, faults, postfix, path, files).objects;
      NamePresent(files[i]) &&
      var k := Normalize(path + files[i].name.value);
      k !in m && k in m' && (m'[k] == files[i].size || m'[k] == 0)
  {
    var b := PutEach(m, faults, path, files);
    UploadOkParts(m, faults, postfix, path, files);
    PutEachWritten(m, faults, path, files, i);
    PutEachShape(m, faults, path, files);
    CreateEachOnlyAdds(b.objects, faults, MarkersOf(path, b.written, postfix));
  }

  /** A successful upload keeps every existing key, with its size or emptied by a marker. */
  lemma UploadKeepsExisting(m: Objects, faults: Faults, postfix: string, path: string, files: seq<Upload>)
    requires UploadResource(m, faults, postfix, path, files).result.Ok?
    ensures var m' := UploadResource(m, faults, postfix, path, files).objects;
      forall k :: k in m ==> k in m' && (m'[k] == m[k] || m'[k] == 0)
  {
    var b := PutEach(m, faults, path, files);
    UploadOkParts(m, faults, postfix, path, files);
    PutEachShape(m, faults, path, files);
    CreateEachOnlyAdds(b.objects, faults, MarkersOf(path, b.written, postfix));
  }

  /** The j-th nested directory of the i-th key, with the postfix, is among the markers written. */
  lemma {:induction false} MarkersOfHas(base: string, keys: seq<string>, postfix: string, i: int, j: int) returns (n: int)
    requires 0 <= i < |keys| && 0 <= j < |NestedDirectories(base, keys[i])|
    ensures 0 <= n < |MarkersOf(base, keys, postfix)| && MarkersOf(base, keys, postfix)[n] == NestedDirectories(base, keys[i])[j] + postfix
    decreases |keys|
  {
    if i == |keys| - 1 {
      MarkersOfHasLast(base, keys, postfix, j);
      n := |MarkersOf(base, keys[..|keys| - 1], postfix)| + j;
    } else {
      var init := keys[..|keys| - 1];
      assert init[i] == keys[i];
      n := MarkersOfHas(base, init, postfix, i, j);
      MarkersOfKeepsFront(base, keys, postfix, n);
    }
  }

  /** The markers of all keys but the last begin the markers of all of them. */
  lemma MarkersOfKeepsFront(base: string, keys: seq<string>, postfix: string, n: int)
    requires keys != [] && 0 <= n < |MarkersOf(base, keys[..|keys| - 1], postfix)|
    ensures n < |MarkersOf(base, keys, postfix)| && MarkersOf(base, keys, postfix)[n] == MarkersOf(base, keys[..|keys| - 1], postfix)[n]
  {
    var front := MarkersOf(base, keys[..|keys| - 1], postfix);
    var last := WithPostfix(NestedDirectories(base, keys[|keys| - 1]), postfix);
    assert MarkersOf(base, keys, postfix) == front + last;
  }

  /** The case of `MarkersOfHas` for the last key: its markers close the run. */
  lemma MarkersOfHasLast(base: string, keys: seq<string>, postfix: string, j: int)
    requires keys != [] && 0 <= j < |NestedDirectories(base, keys[|keys| - 1])|
    ensures var n := |MarkersOf(base, keys[..|keys| - 1], postfix)| + j;
      n < |MarkersOf(base, keys, postfix)| && MarkersOf(base, keys, postfix)[n] == NestedDirectories(base, keys[|keys| - 1])[j] + postfix
  {
    AppendedGroupAt(MarkersOf(base, keys[..|keys| - 1], postfix), NestedDirectories(base, keys[|keys| - 1]), postfix, j);
  }

  lemma AppendedGroupAt(front: seq<string>, dirs: seq<string>, postfix: string, j: int)
    requires 0 <= j < |dirs|
    ensures |front| + j < |front + WithPostfix(dirs, postfix)|
    ensures (front + WithPostfix(dirs, postfix))[|front| + j] == dirs[j] + postfix
  {
  }

  /**
   * After a successful upload the marker of every directory listed for a
   * file's key (`getNestedDirectories(path, key)`) is present and empty.
   */
  lemma UploadWritesMarkers(m: Objects, faults: Faults, postfix: string, path: string, files: seq<Upload>, i: int, j: int)
    requires UploadResource(m, faults, postfix, path, files).result.Ok?
    requires 0 <= i < |files| && NamePresent(files[i])
    requires 0 <= j < |NestedDirectories(path, Normalize(path + files[i].name.value))|
    ensures var m', d := UploadResource(m, faults, postfix, path, files).objects,
        NestedDirectories(path, Normalize(path + files[i].name.value))[j];
      Normalize(d + postfix) in m' && m'[Normalize(d + postfix)] == 0
  {
    var b := PutEach(m, faults, path, files);
    UploadOkParts(m, faults, postfix, path, files);
    PutEachWritten(m, faults, path, files, i);
    var markers := MarkersOf(path, b.written, postfix);
    var n := MarkersOfHas(path, b.written, postfix, i, j);
    CreatedIsPresent(b.objects, faults, markers, n);
  }
}
