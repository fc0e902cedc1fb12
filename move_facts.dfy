/**
 * What moving a file or a directory guarantees about the bucket: an
 * existing destination is never overwritten, a move that goes through
 * leaves the data at the destination and none at the source, and a
 * directory move that fails midway takes its copies back.
 */
module MoveFacts {
  import opened Strings
  import opened Errors
  import opened PathUtils
  import opened Store
  import opened StoreFacts
  import opened Metadata
  import opened Steps
  import opened Manipulation
  import opened DeleteFacts

  /** A file move whose destination exists changes nothing. */
  lemma MoveFileRefusesExisting(m: Objects, faults: Faults, postfix: string, markerSuffix: string, from: string, to: string)
    requires StatExists(m, faults, postfix, to) == Ok(true)
    ensures MoveFile(m, faults, postfix, markerSuffix, from, to) == Outcome(Err(AlreadyExists), m)
  {
  }

  /**
   * A transfer that goes through: the destination key holds the source's
   * size, the source key is gone unless the store refused its delete (it
   * then stays as it was), and every other key stays with its size. The
   * source path must be settled, as the key reported by the stat is passed
   * back to the copy and the delete.
   */
  lemma TransferMoves(m: Objects, faults: Faults, from: string, to: string)
    requires Settled(from)
    requires Transfer(m, faults, from, to).result.Ok?
    ensures var o, s, t := Transfer(m, faults, from, to), Normalize(from), Normalize(to);
      s != t && s in m && t in o.objects && o.objects[t] == m[s] &&
      (s !in o.objects <==> faults(DeleteKeyReq(s)) == NoFault) &&
      (s in o.objects ==> o.objects[s] == m[s]) &&
      o.result.value == Resource(to, false, m[s]) &&
      forall k :: k in m && k != s && k != t ==> k in o.objects && o.objects[k] == m[k]
  {
    var s := Normalize(from);
    var stat := StatResult(m, faults, from).value;
    assert stat == Stat(s, m[s]);
    var o2 := CopyOutcome(m, faults, stat.key, to);
    DeleteOne(o2.objects, faults, stat.key);
  }

  /**
   * A file move that goes through: the destination key holds the reported
   * size, the source key is gone unless the store refused its delete, and
   * every other key stays (with its size, or emptied by a marker).
   */
  lemma MoveFileMoves(m: Objects, faults: Faults, postfix: string, markerSuffix: string, from: string, to: string)
    requires Settled(from)
    requires MoveFile(m, faults, postfix, markerSuffix, from, to).result.Ok?
    ensures var o, s, t := MoveFile(m, faults, postfix, markerSuffix, from, to), Normalize(from), Normalize(to);
      s != t && (s !in o.objects <==> faults(DeleteKeyReq(s)) == NoFault) && t in o.objects &&
      o.result.value == Resource(to, false, o.objects[t]) &&
      forall k :: k in m && k != s && k != t ==> k in o.objects && (o.objects[k] == m[k] || o.objects[k] == 0)
  {
    var markers := WithPostfix(NestedDirectories("", to), markerSuffix);
    var o1 := CreateEach(m, faults, markers);
    assert o1.result.Ok? && MoveFile(m, faults, postfix, markerSuffix, from, to) == Transfer(o1.objects, faults, from, to);
    CreateEachOnlyAdds(m, faults, markers);
    TransferMoves(o1.objects, faults, from, to);
  }

  /**
   * A file move to a file path that goes through wrote a key that did not
   * exist, when the existence check's stat was answered (an error response
   * counts as absent).
   */
  lemma MoveFileTargetWasAbsent(m: Objects, faults: Faults, postfix: string, markerSuffix: string, from: string, to: string)
    requires !IsDir(to) && faults(StatReq(Normalize(to))) == NoFault
    requires MoveFile(m, faults, postfix, markerSuffix, from, to).result.Ok?
    ensures Normalize(to) !in m
  {
    assert StatExists(m, faults, postfix, to) == Ok(false);
    assert StatPath(postfix, to) == to;
  }

  /**
   * The markers of a file move's destination are written (the markers
   * carry `markerSuffix`) unless one lands on the moved source key.
   */
  lemma MoveFileWritesMarkers(m: Objects, faults: Faults, postfix: string, markerSuffix: string, from: string, to: string, j: int)
    requires Settled(from)
    requires MoveFile(m, faults, postfix, markerSuffix, from, to).result.Ok?
    requires 0 <= j < |NestedDirectories("", to)|
    ensures var o, d := MoveFile(m, faults, postfix, markerSuffix, from, to), NestedDirectories("", to)[j];
      Normalize(d + markerSuffix) != Normalize(from) ==> Normalize(d + markerSuffix) in o.objects
  {
    var markers := WithPostfix(NestedDirectories("", to), markerSuffix);
    var o1 := CreateEach(m, faults, markers);
    CreatedIsPresent(m, faults, markers, j);
    TransferMoves(o1.objects, faults, from, to);
  }

  // ---------------------------------------------------------------------
  // Directory moves

  /**
   * A listed key a directory move can relocate to a file path: longer
   * than the source directory, and not itself ending in '/'.
   */
  predicate Movable(from: string, name: string) {
    |from| < |name| && name[|name| - 1] != '/'
  }

  /** The relocated key of a movable name is a file path. */
  lemma RelocatedIsFile(name: string, from: string, to: string)
    requires Movable(from, name)
    ensures Relocate(name, from, to).Ok? && !IsDir(Relocate(name, from, to).value)
  {
    var d := to + name[|from|..];
    assert d[|d| - 1] == name[|name| - 1];
    assert d[|d| - 1..] != "/";
  }

  /** A plan whose existence check stats the very key it copies onto. */
  predicate FileTarget(p: CopyPlan) {
    p.Planned? && p.statKey == p.target
  }

  /** The plan of a movable key copies it onto its relocated path, checked as a file. */
  lemma PlansOfMovable(items: seq<Item>, postfix: string, from: string, to: string)
    requires forall i :: 0 <= i < |items| ==> Movable(from, items[i].objectName)
    ensures var ps := Plans(items, postfix, from, to);
      forall i :: 0 <= i < |items| ==>
        FileTarget(ps[i]) && ps[i].name == items[i].objectName && ps[i].dest == to + items[i].objectName[|from|..] &&
        ps[i].source == Normalize(ps[i].name) && ps[i].target == Normalize(ps[i].dest)
  {
    var ps := Plans(items, postfix, from, to);
    forall i | 0 <= i < |items|
      ensures FileTarget(ps[i]) && ps[i].name == items[i].objectName && ps[i].dest == to + items[i].objectName[|from|..] &&
        ps[i].source == Normalize(ps[i].name) && ps[i].target == Normalize(ps[i].dest)
    {
      RelocatedIsFile(items[i].objectName, from, to);
      assert StatPath(postfix, to + items[i].objectName[|from|..]) == to + items[i].objectName[|from|..];
    }
  }

  /**
   * The last copy of the loop, on what the copies before it left: when it
   * goes through, the target key was absent, the source key present, and
   * the target takes the source's size; otherwise nothing changes. Stats
   * must not be answered by an error response, which the existence check
   * reads as "absent".
   */
  lemma CopyAllStep(m: Objects, faults: Faults, ps: seq<CopyPlan>)
    requires ps != [] && FileTarget(ps[|ps| - 1])
    requires forall k :: faults(StatReq(k)) != ErrorResponse
    ensures var c0, c, p := CopyAll(m, faults, ps[..|ps| - 1]), CopyAll(m, faults, ps), ps[|ps| - 1];
      if c.result.Ok? then
        c0.result.Ok? && c.sources == c0.sources + [p.name] && c.targets == c0.targets + [p.dest] &&
        p.target !in c0.objects && p.source in c0.objects && p.source != p.target &&
        c.objects == c0.objects[p.target := c0.objects[p.source]]
      else c.sources == c0.sources && c.targets == c0.targets && c.objects == c0.objects
  {
  }

  /** How many keys the copy loop went through: all of them exactly when it succeeds. */
  lemma {:induction false} CopyAllCount(m: Objects, faults: Faults, ps: seq<CopyPlan>)
    ensures var c := CopyAll(m, faults, ps);
      (c.result.Ok? ==> |c.sources| == |ps|) && (c.result.Err? ==> |c.sources| < |ps|)
    decreases |ps|
  {
    if ps != [] {
      CopyAllCount(m, faults, ps[..|ps| - 1]);
    }
  }

  /** The i-th copy carried out the i-th plan. */
  lemma {:induction false} CopyAllPairs(m: Objects, faults: Faults, ps: seq<CopyPlan>, i: int)
    requires 0 <= i < |CopyAll(m, faults, ps).sources|
    ensures var c := CopyAll(m, faults, ps);
      ps[i].Planned? && c.sources[i] == ps[i].name && c.targets[i] == ps[i].dest
    decreases |ps|
  {
    var init := ps[..|ps| - 1];
    var c0 := CopyAll(m, faults, init);
    CopyAllCount(m, faults, init);
    if i < |c0.sources| {
      CopyAllPairs(m, faults, init, i);
      assert init[i] == ps[i];
    }
  }

  /** The copy loop, failing or not, keeps every key with its size. */
  lemma {:induction false} CopyAllKeeps(m: Objects, faults: Faults, ps: seq<CopyPlan>)
    requires forall k :: faults(StatReq(k)) != ErrorResponse
    requires forall i :: 0 <= i < |ps| ==> FileTarget(ps[i])
    ensures var c := CopyAll(m, faults, ps);
      forall k :: k in m ==> k in c.objects && c.objects[k] == m[k]
    decreases |ps|
  {
    if ps != [] {
      CopyAllKeeps(m, faults, ps[..|ps| - 1]);
      CopyAllStep(m, faults, ps);
    }
  }

  /** The copy loop only adds the target keys of the plans it carried out. */
  lemma {:induction false} CopyAllAddsTargets(m: Objects, faults: Faults, ps: seq<CopyPlan>)
    requires forall k :: faults(StatReq(k)) != ErrorResponse
    requires forall i :: 0 <= i < |ps| ==> FileTarget(ps[i])
    ensures var c := CopyAll(m, faults, ps);
      forall k :: k in c.objects ==> k in m || exists i :: 0 <= i < |c.sources| && ps[i].Planned? && ps[i].target == k
    decreases |ps|
  {
    if ps != [] {
      var init := ps[..|ps| - 1];
      var c0 := CopyAll(m, faults, init);
      CopyAllAddsTargets(m, faults, init);
      CopyAllStep(m, faults, ps);
      CopyAllCount(m, faults, init);
      var c := CopyAll(m, faults, ps);
      forall k | k in c.objects && k !in m
        ensures exists i :: 0 <= i < |c.sources| && ps[i].Planned? && ps[i].target == k
      {
        if k in c0.objects {
          var i :| 0 <= i < |c0.sources| && init[i].Planned? && init[i].target == k;
          assert ps[i] == init[i];
        } else {
          assert ps[|c0.sources|].target == k;
        }
      }
    }
  }

  /** Every target key the copy loop wrote is present and did not exist before. */
  lemma {:induction false} CopyAllTargetsNew(m: Objects, faults: Faults, ps: seq<CopyPlan>, i: int)
    requires forall k :: faults(StatReq(k)) != ErrorResponse
    requires forall j :: 0 <= j < |ps| ==> FileTarget(ps[j])
    requires 0 <= i < |CopyAll(m, faults, ps).sources|
    ensures var c := CopyAll(m, faults, ps);
      ps[i].Planned? && ps[i].target in c.objects && ps[i].target !in m
    decreases |ps|
  {
    var init := ps[..|ps| - 1];
    var c0 := CopyAll(m, faults, init);
    CopyAllStep(m, faults, ps);
    CopyAllCount(m, faults, init);
    CopyAllKeeps(m, faults, init);
    if i < |c0.sources| {
      CopyAllTargetsNew(m, faults, init, i);
      assert init[i] == ps[i];
    }
  }

  /**
   * Every target of the copy loop holds the size of its source, when every
   * planned source is a key of the bucket.
   */
  lemma {:induction false} CopyAllValue(m: Objects, faults: Faults, ps: seq<CopyPlan>, i: int)
    requires forall k :: faults(StatReq(k)) != ErrorResponse
    requires forall j :: 0 <= j < |ps| ==> FileTarget(ps[j]) && ps[j].source in m
    requires 0 <= i < |CopyAll(m, faults, ps).sources|
    ensures var c := CopyAll(m, faults, ps);
      ps[i].Planned? && ps[i].target in c.objects && c.objects[ps[i].target] == m[ps[i].source]
    decreases |ps|
  {
    var init := ps[..|ps| - 1];
    var c0 := CopyAll(m, faults, init);
    CopyAllStep(m, faults, ps);
    CopyAllCount(m, faults, init);
    CopyAllKeeps(m, faults, init);
    forall j | 0 <= j < |init| ensures FileTarget(init[j]) && init[j].source in m {
      assert init[j] == ps[j];
    }
    if i < |c0.sources| {
      CopyAllValue(m, faults, init, i);
      assert init[i] == ps[i];
    }
  }

  /** Plans whose target keys are the normalised destinations the loop records. */
  predicate TargetsNormal(ps: seq<CopyPlan>) {
    forall i :: 0 <= i < |ps| ==> FileTarget(ps[i]) && ps[i].target == Normalize(ps[i].dest)
  }

  /**
   * Deleting what the copy loop recorded as copied restores the bucket it
   * started from, however far the loop got: every key keeps its size, and
   * the only keys left over are copies whose delete the store refused;
   * with no refusal the bucket is as before.
   */
  lemma RollbackRestores(m: Objects, faults: Faults, ps: seq<CopyPlan>)
    requires forall k :: faults(StatReq(k)) != ErrorResponse
    requires forall ks :: faults(DeleteReq(ks)) == NoFault
    requires TargetsNormal(ps)
    ensures var c := CopyAll(m, faults, ps);
      var o := DeleteEach(c.objects, faults, c.targets);
      o.result.Ok? &&
      (forall k :: k in m ==> k in o.objects && o.objects[k] == m[k]) &&
      (forall k :: k in o.objects && k !in m ==> faults(DeleteKeyReq(k)) != NoFault) &&
      ((forall k :: faults(DeleteKeyReq(k)) == NoFault) ==> o.objects == m)
  {
    var c := CopyAll(m, faults, ps);
    var ks := KeySet(c.targets);
    DeleteEachSucceeds(c.objects, faults, c.targets);
    DeleteEachRemoves(c.objects, faults, c.targets);
    CopyAllKeeps(m, faults, ps);
    CopyAllAddsTargets(m, faults, ps);
    CopyAllCount(m, faults, ps);
    forall i | 0 <= i < |c.sources|
      ensures Normalize(c.targets[i]) == ps[i].target && ps[i].target !in m
    {
      CopyAllPairs(m, faults, ps, i);
      CopyAllTargetsNew(m, faults, ps, i);
    }
    forall k | k in c.objects && k !in m ensures k in ks {
      var i :| 0 <= i < |c.sources| && ps[i].Planned? && ps[i].target == k;
      assert Normalize(c.targets[i]) in ks;
    }
    RemoveRefusable(m, c.objects, faults, ks);
  }

  /**
   * Removing from `c` the keys of `ks` the store accepts, where `c` holds
   * `m` plus keys of `ks` only: `m` stays, and only refused keys of `ks`
   * are left over.
   */
  lemma RemoveRefusable(m: Objects, c: Objects, faults: Faults, ks: set<string>)
    requires forall k :: k in m ==> k in c && c[k] == m[k]
    requires forall k :: k in c && k !in m ==> k in ks
    requires forall k :: k in ks ==> k !in m
    ensures var r := c - Accepted(faults, ks);
      (forall k :: k in m ==> k in r && r[k] == m[k]) &&
      (forall k :: k in r && k !in m ==> faults(DeleteKeyReq(k)) != NoFault) &&
      ((forall k :: faults(DeleteKeyReq(k)) == NoFault) ==> r == m)
  {
    var r := c - Accepted(faults, ks);
    if forall k :: faults(DeleteKeyReq(k)) == NoFault {
      assert r.Keys == m.Keys;
    }
  }

  /**
   * A directory move whose copy loop fails leaves the bucket as it was:
   * the copies are deleted again, so every key keeps its size and only
   * copies whose delete the store refused are left over (none when it
   * refuses none). This holds when stats are answered (an error response
   * would read as "absent"), delete requests go through, and every key
   * below the source directory relocates to a file path.
   */
  lemma MoveDirectoryRollsBack(m: Objects, faults: Faults, postfix: string, from: string, to: string)
    requires forall k :: faults(StatReq(k)) != ErrorResponse
    requires forall ks :: faults(DeleteReq(ks)) == NoFault
    requires RelocatableBelow(m, Normalize(from), from)
    requires CopyEach(m, faults, postfix, from, to, Listing(m, Normalize(from), true)).result.Err?
    ensures var o := MoveDirectory(m, faults, postfix, from, to);
      o.result.Err? &&
      (forall k :: k in m ==> k in o.objects && o.objects[k] == m[k]) &&
      (forall k :: k in o.objects && k !in m ==> faults(DeleteKeyReq(k)) != NoFault) &&
      ((forall k :: faults(DeleteKeyReq(k)) == NoFault) ==> o.objects == m)
  {
    var items := Listing(m, Normalize(from), true);
    RecursiveListingIsExact(m, Normalize(from));
    PlansOfMovable(items, postfix, from, to);
    RollbackRestores(m, faults, Plans(items, postfix, from, to));
  }

  /** Plans whose sources are keys of `m` in normal form, each the listed name itself. */
  predicate SourcesNormal(m: Objects, ps: seq<CopyPlan>) {
    forall i :: 0 <= i < |ps| ==> ps[i].Planned? && ps[i].source == ps[i].name && Normalize(ps[i].name) == ps[i].name && ps[i].name in m
  }

  /** A copy loop that went through copied every source; their keys are the sources themselves. */
  lemma CopiedSources(m: Objects, faults: Faults, ps: seq<CopyPlan>)
    requires SourcesNormal(m, ps)
    requires CopyAll(m, faults, ps).result.Ok?
    ensures var c := CopyAll(m, faults, ps);
      |c.sources| == |ps| && (forall i :: 0 <= i < |ps| ==> c.sources[i] == ps[i].name) &&
      forall k :: k in KeySet(c.sources) <==> k in c.sources
  {
    var c := CopyAll(m, faults, ps);
    CopyAllCount(m, faults, ps);
    forall i | 0 <= i < |ps| ensures c.sources[i] == ps[i].name {
      CopyAllPairs(m, faults, ps, i);
    }
    KeySetOfNormal(c.sources);
  }

  /** A copy loop that went through wrote every target, new, with its source's size. */
  lemma CopiedTargets(m: Objects, faults: Faults, ps: seq<CopyPlan>)
    requires forall k :: faults(StatReq(k)) != ErrorResponse
    requires TargetsNormal(ps) && SourcesNormal(m, ps)
    requires CopyAll(m, faults, ps).result.Ok?
    ensures var c := CopyAll(m, faults, ps);
      forall i :: 0 <= i < |ps| ==>
        ps[i].target !in m && ps[i].target in c.objects && c.objects[ps[i].target] == m[ps[i].name]
  {
    var c := CopyAll(m, faults, ps);
    CopyAllCount(m, faults, ps);
    forall i | 0 <= i < |ps|
      ensures ps[i].target !in m && ps[i].target in c.objects && c.objects[ps[i].target] == m[ps[i].name]
    {
      CopyAllTargetsNew(m, faults, ps, i);
      CopyAllValue(m, faults, ps, i);
    }
  }

  /**
   * A copy loop that went through, followed by deleting its sources with
   * no failed request: each target holds its source's size and each
   * source is gone unless the store refused its delete.
   */
  lemma DeleteSourcesKeepsTargets(m: Objects, faults: Faults, ps: seq<CopyPlan>)
    requires forall k :: faults(StatReq(k)) != ErrorResponse
    requires TargetsNormal(ps) && SourcesNormal(m, ps)
    requires CopyAll(m, faults, ps).result.Ok?
    requires DeleteEach(CopyAll(m, faults, ps).objects, faults, CopyAll(m, faults, ps).sources).result.Ok?
    ensures var c := CopyAll(m, faults, ps);
      var d := DeleteEach(c.objects, faults, c.sources).objects;
      forall i :: 0 <= i < |ps| ==>
        ps[i].target !in m && ps[i].target in d && d[ps[i].target] == m[ps[i].name] &&
        (ps[i].name !in d <==> faults(DeleteKeyReq(ps[i].name)) == NoFault)
  {
    var c := CopyAll(m, faults, ps);
    var d := DeleteEach(c.objects, faults, c.sources).objects;
    var gone := Accepted(faults, KeySet(c.sources));
    DeleteEachRemoves(c.objects, faults, c.sources);
    assert d == c.objects - gone;
    CopiedSources(m, faults, ps);
    CopiedTargets(m, faults, ps);
    CopyAllKeeps(m, faults, ps);
    forall i | 0 <= i < |ps|
      ensures ps[i].target !in m && ps[i].target in d && d[ps[i].target] == m[ps[i].name] &&
        (ps[i].name !in d <==> faults(DeleteKeyReq(ps[i].name)) == NoFault)
    {
      assert c.sources[i] in c.sources;
      assert ps[i].target !in KeySet(c.sources) && ps[i].name in KeySet(c.sources);
      assert ps[i].name in c.objects;
    }
  }

  /** Deleting the sources of a copy loop that went through keeps every key that was no source. */
  lemma DeleteSourcesKeepsOthers(m: Objects, faults: Faults, ps: seq<CopyPlan>)
    requires forall k :: faults(StatReq(k)) != ErrorResponse
    requires TargetsNormal(ps) && SourcesNormal(m, ps)
    requires CopyAll(m, faults, ps).result.Ok?
    requires DeleteEach(CopyAll(m, faults, ps).objects, faults, CopyAll(m, faults, ps).sources).result.Ok?
    ensures var c := CopyAll(m, faults, ps);
      var d := DeleteEach(c.objects, faults, c.sources).objects;
      forall k :: k in m ==> (k in d && d[k] == m[k]) || exists i :: 0 <= i < |ps| && ps[i].name == k
  {
    var c := CopyAll(m, faults, ps);
    DeleteEachRemoves(c.objects, faults, c.sources);
    CopiedSources(m, faults, ps);
    CopyAllKeeps(m, faults, ps);
    forall k | k in m && k in KeySet(c.sources) ensures exists i :: 0 <= i < |ps| && ps[i].name == k {
      var i :| 0 <= i < |c.sources| && c.sources[i] == k;
    }
  }

  /** Each of `items` names a key below `p`, with that key's size. */
  predicate ListsBelow(m: Objects, items: seq<Item>, p: string) {
    forall i :: 0 <= i < |items| ==>
      items[i].objectName in m && StartsWith(items[i].objectName, p) && items[i].size == m[items[i].objectName]
  }

  /** Every key below `p` is named by one of `items`. */
  predicate CoversBelow(m: Objects, items: seq<Item>, p: string) {
    forall k :: k in m && StartsWith(k, p) ==> exists i :: 0 <= i < |items| && items[i].objectName == k
  }

  /** Every key below `p` can be moved out of `from` to a file path. */
  predicate RelocatableBelow(m: Objects, p: string, from: string) {
    forall k :: k in m && StartsWith(k, p) ==> Movable(from, k)
  }

  /** The plans of keys listed below `p`, under the conditions a move needs. */
  lemma ItemPlans(m: Objects, items: seq<Item>, postfix: string, from: string, to: string, p: string)
    requires ListsBelow(m, items, p) && NormalBelow(m, p) && RelocatableBelow(m, p, from)
    ensures var ps := Plans(items, postfix, from, to);
      TargetsNormal(ps) && SourcesNormal(m, ps) &&
      forall i :: 0 <= i < |items| ==>
        ps[i].name == items[i].objectName && ps[i].target == Normalize(to + items[i].objectName[|from|..])
  {
    forall i | 0 <= i < |items| ensures Movable(from, items[i].objectName) {
    }
    PlansOfMovable(items, postfix, from, to);
  }

  /**
   * A move of the keys listed below `p` that goes through puts every key
   * below `p` at its relocated key, which did not exist before, with the
   * key's size (or emptied by a marker written afterwards).
   */
  lemma MoveListedMovesData(m: Objects, faults: Faults, postfix: string, from: string, to: string, items: seq<Item>, p: string)
    requires forall k :: faults(StatReq(k)) != ErrorResponse
    requires ListsBelow(m, items, p) && CoversBelow(m, items, p) && NormalBelow(m, p) && RelocatableBelow(m, p, from)
    requires MoveListed(m, faults, postfix, from, to, items).result.Ok?
    ensures var m' := MoveListed(m, faults, postfix, from, to, items).objects;
      forall k :: k in m && StartsWith(k, p) ==>
        var t := Normalize(to + k[|from|..]);
        t !in m && t in m' && (m'[t] == m[k] || m'[t] == 0)
  {
    var ps := Plans(items, postfix, from, to);
    var c := CopyAll(m, faults, ps);
    var d := DeleteEach(c.objects, faults, c.sources);
    var mk := CreateEach(d.objects, faults, MarkersOf("", c.targets, postfix));
    ItemPlans(m, items, postfix, from, to, p);
    DeleteSourcesKeepsTargets(m, faults, ps);
    CreateEachOnlyAdds(d.objects, faults, MarkersOf("", c.targets, postfix));
    forall k | k in m && StartsWith(k, p)
      ensures var t := Normalize(to + k[|from|..]); t !in m && t in mk.objects && (mk.objects[t] == m[k] || mk.objects[t] == 0)
    {
      var i :| 0 <= i < |items| && items[i].objectName == k;
    }
  }

  /**
   * After a move of the keys listed below `p` that goes through, no key
   * below `p` whose delete the store accepted holds data any more: it is
   * gone, or re-created as an empty marker.
   */
  lemma MoveListedClearsSource(m: Objects, faults: Faults, postfix: string, from: string, to: string, items: seq<Item>, p: string)
    requires forall k :: faults(StatReq(k)) != ErrorResponse
    requires ListsBelow(m, items, p) && CoversBelow(m, items, p) && NormalBelow(m, p) && RelocatableBelow(m, p, from)
    requires MoveListed(m, faults, postfix, from, to, items).result.Ok?
    ensures var m' := MoveListed(m, faults, postfix, from, to, items).objects;
      forall k :: k in m && StartsWith(k, p) && faults(DeleteKeyReq(k)) == NoFault ==> k !in m' || m'[k] == 0
  {
    var ps := Plans(items, postfix, from, to);
    var c := CopyAll(m, faults, ps);
    var d := DeleteEach(c.objects, faults, c.sources);
    ItemPlans(m, items, postfix, from, to, p);
    DeleteSourcesKeepsTargets(m, faults, ps);
    CreateEachOnlyAdds(d.objects, faults, MarkersOf("", c.targets, postfix));
    forall k | k in m && StartsWith(k, p) && faults(DeleteKeyReq(k)) == NoFault ensures k !in d.objects {
      var i :| 0 <= i < |items| && items[i].objectName == k;
    }
  }

  /**
   * A move of the keys listed below `p` that goes through keeps every key
   * outside `p`, with its size or emptied by a marker.
   */
  lemma MoveListedKeepsOthers(m: Objects, faults: Faults, postfix: string, from: string, to: string, items: seq<Item>, p: string)
    requires forall k :: faults(StatReq(k)) != ErrorResponse
    requires ListsBelow(m, items, p) && NormalBelow(m, p) && RelocatableBelow(m, p, from)
    requires MoveListed(m, faults, postfix, from, to, items).result.Ok?
    ensures var m' := MoveListed(m, faults, postfix, from, to, items).objects;
      forall k :: k in m && !StartsWith(k, p) ==> k in m' && (m'[k] == m[k] || m'[k] == 0)
  {
    var ps := Plans(items, postfix, from, to);
    var c := CopyAll(m, faults, ps);
    var d := DeleteEach(c.objects, faults, c.sources);
    ItemPlans(m, items, postfix, from, to, p);
    DeleteSourcesKeepsOthers(m, faults, ps);
    CreateEachOnlyAdds(d.objects, faults, MarkersOf("", c.targets, postfix));
    forall k | k in m && !StartsWith(k, p) ensures k in d.objects && d.objects[k] == m[k] {
      forall i | 0 <= i < |ps| ensures ps[i].name != k {
        assert StartsWith(items[i].objectName, p);
      }
    }
  }

  /**
   * A directory move that goes through puts every key below the source
   * directory at its relocated key, which did not exist before, with the
   * key's size (or emptied by a marker written afterwards). Stats must be
   * answered, the keys below the source in normal form and relocatable to
   * file paths.
   */
  lemma MoveDirectoryMovesData(m: Objects, faults: Faults, postfix: string, from: string, to: string)
    requires forall k :: faults(StatReq(k)) != ErrorResponse
    requires NormalBelow(m, Normalize(from)) && RelocatableBelow(m, Normalize(from), from)
    requires MoveDirectory(m, faults, postfix, from, to).result.Ok?
    ensures var m' := MoveDirectory(m, faults, postfix, from, to).objects;
      forall k :: k in m && StartsWith(k, Normalize(from)) ==>
        var t := Normalize(to + k[|from|..]);
        t !in m && t in m' && (m'[t] == m[k] || m'[t] == 0)
  {
    RecursiveListingIsExact(m, Normalize(from));
    MoveListedMovesData(m, faults, postfix, from, to, Listing(m, Normalize(from), true), Normalize(from));
  }

  /**
   * After a directory move that goes through, no key below the source
   * directory whose delete the store accepted holds data any more (it is
   * gone, or re-created as an empty marker), and every other key stays
   * with its size or emptied by a marker.
   */
  lemma MoveDirectoryClearsSource(m: Objects, faults: Faults, postfix: string, from: string, to: string)
    requires forall k :: faults(StatReq(k)) != ErrorResponse
    requires NormalBelow(m, Normalize(from)) && RelocatableBelow(m, Normalize(from), from)
    requires MoveDirectory(m, faults, postfix, from, to).result.Ok?
    ensures var m', p := MoveDirectory(m, faults, postfix, from, to).objects, Normalize(from);
      (forall k :: k in m && StartsWith(k, p) && faults(DeleteKeyReq(k)) == NoFault ==> k !in m' || m'[k] == 0) &&
      (forall k :: k in m && !StartsWith(k, p) ==> k in m' && (m'[k] == m[k] || m'[k] == 0))
  {
    RecursiveListingIsExact(m, Normalize(from));
    MoveListedClearsSource(m, faults, postfix, from, to, Listing(m, Normalize(from), true), Normalize(from));
    MoveListedKeepsOthers(m, faults, postfix, from, to, Listing(m, Normalize(from), true), Normalize(from));
  }
}
