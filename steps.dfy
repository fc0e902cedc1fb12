/**
 * Runs of single-key store requests, as the services issue them in loops:
 * `createEmptyObject(k)` for each marker and `deleteObject(k)` (a one-key
 * batch delete) for each key. A failing request ends the run with its
 * error; the requests before it stay applied.
 */
module Steps {
  import opened Errors
  import opened PathUtils
  import opened Store

  /** `createEmptyObject` of each path in turn, stopping at the first failure. */
  function CreateEach(m: Objects, faults: Faults, paths: seq<string>): Outcome<()>
    decreases |paths|
  {
    if paths == [] then Outcome(Ok(()), m)
    else
      var o := CreateEach(m, faults, paths[..|paths| - 1]);
      if o.result.Err? then o else CreateOutcome(o.objects, faults, paths[|paths| - 1])
  }

  /** `deleteObject` of each path in turn, stopping at the first failure. */
  function DeleteEach(m: Objects, faults: Faults, paths: seq<string>): Outcome<()>
    decreases |paths|
  {
    if paths == [] then Outcome(Ok(()), m)
    else
      var o := DeleteEach(m, faults, paths[..|paths| - 1]);
      if o.result.Err? then o else DeleteOutcome(o.objects, faults, [paths[|paths| - 1]])
  }

  /** Each directory followed by the marker postfix. */
  function WithPostfix(dirs: seq<string>, postfix: string): (r: seq<string>)
    ensures |r| == |dirs| && forall i :: 0 <= i < |r| ==> r[i] == dirs[i] + postfix
  {
    seq(|dirs|, i requires 0 <= i < |dirs| => dirs[i] + postfix)
  }

  lemma DropLastOfAppend<T>(a: seq<T>, b: seq<T>)
    requires b != []
    ensures (a + b)[..|a + b| - 1] == a + b[..|b| - 1] && (a + b)[|a + b| - 1] == b[|b| - 1]
  {
  }

  /** Creating `a + b` is creating `a`, then (if that succeeded) `b`. */
  lemma {:induction false} CreateEachAppend(m: Objects, faults: Faults, a: seq<string>, b: seq<string>)
    ensures CreateEach(m, faults, a + b) ==
      (var o := CreateEach(m, faults, a); if o.result.Err? then o else CreateEach(o.objects, faults, b))
    decreases |b|
  {
    if b == [] {
      assert a + b == a;
    } else {
      DropLastOfAppend(a, b);
      CreateEachAppend(m, faults, a, b[..|b| - 1]);
    }
  }

  /** Deleting `a + b` is deleting `a`, then (if that succeeded) `b`. */
  lemma {:induction false} DeleteEachAppend(m: Objects, faults: Faults, a: seq<string>, b: seq<string>)
    ensures DeleteEach(m, faults, a + b) ==
      (var o := DeleteEach(m, faults, a); if o.result.Err? then o else DeleteEach(o.objects, faults, b))
    decreases |b|
  {
    if b == [] {
      assert a + b == a;
      var o := DeleteEach(m, faults, a);
      if o.result.Ok? {
        var v: () := o.result.value;
        assert v == ();
      }
    } else {
      DropLastOfAppend(a, b);
      DeleteEachAppend(m, faults, a, b[..|b| - 1]);
    }
  }

  lemma KeySetOne(k: string)
    ensures KeySet([k]) == {Normalize(k)}
  {
    assert Normalize([k][0]) in KeySet([k]);
  }

  /** The keys of a concatenation are the keys of its parts. */
  lemma KeySetAppend(a: seq<string>, b: seq<string>)
    ensures KeySet(a + b) == KeySet(a) + KeySet(b)
  {
    forall x | x in KeySet(a + b) ensures x in KeySet(a) + KeySet(b) {
      var i :| 0 <= i < |a + b| && x == Normalize((a + b)[i]);
      if i < |a| { assert (a + b)[i] == a[i]; } else { assert (a + b)[i] == b[i - |a|]; }
    }
    forall x | x in KeySet(a) ensures x in KeySet(a + b) {
      var i :| 0 <= i < |a| && x == Normalize(a[i]);
      assert (a + b)[i] == a[i];
    }
    forall x | x in KeySet(b) ensures x in KeySet(a + b) {
      var i :| 0 <= i < |b| && x == Normalize(b[i]);
      assert (a + b)[|a| + i] == b[i];
    }
  }

  lemma KeySetSnoc(keys: seq<string>)
    requires keys != []
    ensures KeySet(keys) == KeySet(keys[..|keys| - 1]) + {Normalize(keys[|keys| - 1])}
  {
    assert keys == keys[..|keys| - 1] + [keys[|keys| - 1]];
    KeySetAppend(keys[..|keys| - 1], [keys[|keys| - 1]]);
    KeySetOne(keys[|keys| - 1]);
  }

  /**
   * `deleteObject(p)`: a single request for the one key. It fails with
   * nothing removed, or goes through and removes the key unless the store
   * refused it.
   */
  lemma DeleteOne(m: Objects, faults: Faults, p: string)
    ensures var k := Normalize(p);
      DeleteOutcome(m, faults, [p]) ==
        if faults(DeleteReq({k})) != NoFault then Outcome(Err(StoreError), m)
        else Outcome(Ok(()), if faults(DeleteKeyReq(k)) == NoFault then m - {k} else m)
  {
    var k := Normalize(p);
    var keys := NormalKeys([p]);
    assert keys == [k] && keys[..1] == keys && keys[1..] == [];
    assert BatchLength(keys) == 1 && Elements(keys[..1]) == {k};
    var rest := m - Accepted(faults, {k});
    assert RemoveBatches(rest, faults, []) == Outcome(Ok(()), rest);
    if faults(DeleteKeyReq(k)) == NoFault {
      assert Accepted(faults, {k}) == {k};
    } else {
      assert Accepted(faults, {k}) == {};
    }
  }

  /** The last delete of a run, on what the deletes before it left. */
  lemma DeleteEachStep(m: Objects, faults: Faults, paths: seq<string>)
    requires paths != []
    ensures var o0 := DeleteEach(m, faults, paths[..|paths| - 1]);
      var o := DeleteEach(m, faults, paths);
      (o.result.Ok? ==> o0.result.Ok?) &&
      o.objects == if o.result.Ok? then o0.objects - Accepted(faults, {Normalize(paths[|paths| - 1])}) else o0.objects
  {
    var o0 := DeleteEach(m, faults, paths[..|paths| - 1]);
    var k := Normalize(paths[|paths| - 1]);
    DeleteOne(o0.objects, faults, paths[|paths| - 1]);
    if faults(DeleteKeyReq(k)) == NoFault {
      assert Accepted(faults, {k}) == {k};
    } else {
      assert Accepted(faults, {k}) == {};
    }
  }

  /**
   * Deleting keys one by one with no failure removes exactly their
   * normalised keys, except those the store refused.
   */
  lemma {:induction false} DeleteEachRemoves(m: Objects, faults: Faults, paths: seq<string>)
    requires DeleteEach(m, faults, paths).result.Ok?
    ensures DeleteEach(m, faults, paths).objects == m - Accepted(faults, KeySet(paths))
    decreases |paths|
  {
    if paths != [] {
      DeleteEachStep(m, faults, paths);
      DeleteEachRemoves(m, faults, paths[..|paths| - 1]);
      KeySetSnoc(paths);
      var k := Normalize(paths[|paths| - 1]);
      assert Accepted(faults, KeySet(paths)) == Accepted(faults, KeySet(paths[..|paths| - 1])) + Accepted(faults, {k});
    }
  }

  /** When the store refuses no key, a run of deletes that goes through removes exactly the keys. */
  lemma DeleteEachRemovesAll(m: Objects, faults: Faults, paths: seq<string>)
    requires forall k :: faults(DeleteKeyReq(k)) == NoFault
    requires DeleteEach(m, faults, paths).result.Ok?
    ensures DeleteEach(m, faults, paths).objects == m - KeySet(paths)
  {
    DeleteEachRemoves(m, faults, paths);
    assert Accepted(faults, KeySet(paths)) == KeySet(paths);
  }

  /** What a run of deletes may do, failing or not: only remove keys, never add or change one. */
  lemma {:induction false} DeleteEachOnlyRemoves(m: Objects, faults: Faults, paths: seq<string>)
    ensures var m' := DeleteEach(m, faults, paths).objects;
      m'.Keys <= m.Keys && forall x :: x in m' ==> m'[x] == m[x]
    decreases |paths|
  {
    if paths != [] {
      DeleteEachStep(m, faults, paths);
      DeleteEachOnlyRemoves(m, faults, paths[..|paths| - 1]);
    }
  }

  /** The last creation of a run, on what the creations before it left. */
  lemma CreateEachStep(m: Objects, faults: Faults, paths: seq<string>)
    requires paths != []
    ensures var o0 := CreateEach(m, faults, paths[..|paths| - 1]);
      var o := CreateEach(m, faults, paths);
      (o.result.Ok? ==> o0.result.Ok?) &&
      o.objects == if o.result.Ok? then o0.objects[Normalize(paths[|paths| - 1]) := 0] else o0.objects
  {
  }

  /**
   * Creating markers only adds empty objects, failing or not: every key
   * stays, and each either keeps its size or becomes empty.
   */
  lemma {:induction false} CreateEachOnlyAdds(m: Objects, faults: Faults, paths: seq<string>)
    ensures var m' := CreateEach(m, faults, paths).objects;
      m.Keys <= m'.Keys && forall x :: x in m' ==> m'[x] == 0 || (x in m && m'[x] == m[x])
    decreases |paths|
  {
    if paths != [] {
      CreateEachStep(m, faults, paths);
      CreateEachOnlyAdds(m, faults, paths[..|paths| - 1]);
    }
  }

  /** When no creation fails, the object at every created path is present and empty. */
  lemma {:induction false} CreatedIsPresent(m: Objects, faults: Faults, paths: seq<string>, i: int)
    requires CreateEach(m, faults, paths).result.Ok?
    requires 0 <= i < |paths|
    ensures var m' := CreateEach(m, faults, paths).objects;
      Normalize(paths[i]) in m' && m'[Normalize(paths[i])] == 0
    decreases |paths|
  {
    var init := paths[..|paths| - 1];
    CreateEachStep(m, faults, paths);
    if i < |init| {
      CreatedIsPresent(m, faults, init, i);
      assert paths[i] == init[i];
    } else {
      assert i == |paths| - 1;
    }
  }

  /** With no failing delete request, a run of deletes succeeds. */
  lemma {:induction false} DeleteEachSucceeds(m: Objects, faults: Faults, paths: seq<string>)
    requires forall ks :: faults(DeleteReq(ks)) == NoFault
    ensures DeleteEach(m, faults, paths).result.Ok?
    decreases |paths|
  {
    if paths != [] {
      DeleteEachSucceeds(m, faults, paths[..|paths| - 1]);
      DeleteOne(DeleteEach(m, faults, paths[..|paths| - 1]).objects, faults, paths[|paths| - 1]);
    }
  }

  /** The keys of paths already in normal form are the paths themselves. */
  lemma KeySetOfNormal(paths: seq<string>)
    requires forall i :: 0 <= i < |paths| ==> Normalize(paths[i]) == paths[i]
    ensures forall k :: k in KeySet(paths) <==> k in paths
  {
    forall k | k in paths ensures k in KeySet(paths) {
      var i :| 0 <= i < |paths| && paths[i] == k;
      assert Normalize(paths[i]) in KeySet(paths);
    }
  }
}
