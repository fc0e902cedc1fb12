/**
 * Searching a directory tree by name: every key below the searched path
 * is matched, case-insensitively, by its simple name — a marker key
 * `.../d/` + postfix by the directory name `d`, any other key by its last
 * name. The searched directory's own marker is skipped; directory hits
 * are reported with the postfix trimmed.
 */
module Search {
  import opened Strings
  import opened Errors
  import opened PathUtils
  import opened Store
  import opened Metadata

  /**
   * What one listed key contributes to a search: nothing, a hit, or the
   * failure of taking its simple name.
   */
  function Classify(item: Item, postfix: string, path: string, query: string): (r: Result<Option<Resource>>)
    ensures item.objectName == path + postfix ==> r == Ok(None)
    ensures r.Err? ==> r.error == IllegalArgument
  {
    var name := item.objectName;
    if name == path + postfix then Ok(None)
    else
      var isDir := EndsWith(name, postfix);
      match ParentFromEndAtN(name, if isDir then 1 else 0)
      case Err(e) => Err(e)
      case Ok(simple) =>
        if !Contains(Lower(simple), Lower(query)) then Ok(None)
        else if isDir then Ok(Some(Resource(name[..|name| - |postfix|], true, item.size)))
        else Ok(Some(Resource(name, false, item.size)))
  }

  /** Each listed item, classified. */
  function Classified(items: seq<Item>, postfix: string, path: string, query: string): (cs: seq<Result<Option<Resource>>>)
    ensures |cs| == |items|
    ensures forall i :: 0 <= i < |items| ==> cs[i] == Classify(items[i], postfix, path, query)
  {
    seq(|items|, i requires 0 <= i < |items| => Classify(items[i], postfix, path, query))
  }

  /** The hits among `cs`, in order; the first failure fails the whole. */
  function Gather<T>(cs: seq<Result<Option<T>>>): (r: Result<seq<T>>)
    ensures r.Ok? ==> |r.value| <= |cs|
  {
    if cs == [] then Ok([])
    else
      match Gather(cs[..|cs| - 1])
      case Err(e) => Err(e)
      case Ok(hits) =>
        match cs[|cs| - 1]
        case Err(e) => Err(e)
        case Ok(None) => Ok(hits)
        case Ok(Some(x)) => Ok(hits + [x])
  }

  /** The hits of `items` in listing order; the first item that fails fails the search. */
  function SearchOver(items: seq<Item>, postfix: string, path: string, query: string): Result<seq<Resource>> {
    Gather(Classified(items, postfix, path, query))
  }

  /** `searchResources`: the recursive listing of `path`, searched. */
  function Search(m: Objects, faults: Faults, postfix: string, path: string, query: string): Result<seq<Resource>> {
    match ListResult(m, faults, path, true)
    case Err(e) => Err(e)
    case Ok(items) => SearchOver(items, postfix, path, query)
  }

  /** The loop of `searchResources` over the listed items. */
  method Scan(items: seq<Item>, postfix: string, path: string, query: string) returns (r: Result<seq<Resource>>)
    ensures r == SearchOver(items, postfix, path, query)
  {
    ghost var cs := Classified(items, postfix, path, query);
    var result := [];
    var i := 0;
    while i < |items|
      invariant 0 <= i <= |items|
      invariant Gather(cs[..i]) == Ok(result)
    {
      GatherStep(cs, i);
      var c := Classify(items[i], postfix, path, query);
      assert c == cs[i];
      match c {
        case Err(e) =>
          GatherKeepsFailure(cs, i + 1);
          return Err(e);
        case Ok(None) =>
        case Ok(Some(x)) =>
          result := result + [x];
      }
      i := i + 1;
    }
    assert cs[..i] == cs;
    r := Ok(result);
  }

  /** A search service over a bucket, for one marker postfix. */
  class SearchService {
    const store: Bucket
    const folderPostfix: string

    constructor (store: Bucket, folderPostfix: string)
      ensures this.store == store && this.folderPostfix == folderPostfix
    {
      this.store := store;
      this.folderPostfix := folderPostfix;
    }

    method SearchResources(path: string, query: string) returns (r: Result<seq<Resource>>)
      ensures r == Search(store.objects, store.faults, folderPostfix, path, query)
    {
      var listed := store.GetListObjects(path, true);
      if listed.Err? {
        return Err(listed.error);
      }
      r := Scan(listed.value, folderPostfix, path, query);
    }
  }

  // ---------------------------------------------------------------------
  // Gathering classified items

  /** One more classified item: a failure, nothing, or one more hit. */
  lemma GatherStep<T>(cs: seq<Result<Option<T>>>, i: int)
    requires 0 <= i < |cs| && Gather(cs[..i]).Ok?
    ensures Gather(cs[..i + 1]) ==
      match cs[i]
      case Err(e) => Err(e)
      case Ok(None) => Gather(cs[..i])
      case Ok(Some(x)) => Ok(Gather(cs[..i]).value + [x])
  {
    assert cs[..i + 1][..i] == cs[..i];
  }

  /** Once a prefix fails, the whole fails with the same error. */
  lemma {:induction false} GatherKeepsFailure<T>(cs: seq<Result<Option<T>>>, k: int)
    requires 0 <= k <= |cs| && Gather(cs[..k]).Err?
    ensures Gather(cs) == Gather(cs[..k])
    decreases |cs| - k
  {
    if k == |cs| {
      assert cs[..k] == cs;
    } else {
      assert cs[..k + 1][..k] == cs[..k];
      GatherKeepsFailure(cs, k + 1);
    }
  }

  lemma {:induction false} GatherOkAll<T>(cs: seq<Result<Option<T>>>, i: int)
    requires Gather(cs).Ok? && 0 <= i < |cs|
    ensures cs[i].Ok?
    decreases |cs|
  {
    var init := cs[..|cs| - 1];
    if i < |init| {
      assert init[i] == cs[i];
      GatherOkAll(init, i);
    }
  }

  lemma {:induction false} GatherErrFrom<T>(cs: seq<Result<Option<T>>>)
    requires Gather(cs).Err?
    ensures exists i :: 0 <= i < |cs| && cs[i] == Err(Gather(cs).error)
    decreases |cs|
  {
    var init := cs[..|cs| - 1];
    if Gather(init).Err? {
      GatherErrFrom(init);
      var i :| 0 <= i < |init| && init[i] == Err(Gather(init).error);
      assert cs[i] == init[i];
    } else {
      assert cs[|cs| - 1] == Err(Gather(cs).error);
    }
  }

  lemma {:induction false} GatherHitFrom<T>(cs: seq<Result<Option<T>>>, j: int)
    requires Gather(cs).Ok? && 0 <= j < |Gather(cs).value|
    ensures exists i :: 0 <= i < |cs| && cs[i] == Ok(Some(Gather(cs).value[j]))
    decreases |cs|
  {
    var init := cs[..|cs| - 1];
    var hits := Gather(init).value;
    if j < |hits| {
      GatherHitFrom(init, j);
      var i :| 0 <= i < |init| && init[i] == Ok(Some(hits[j]));
      assert cs[i] == init[i];
    } else {
      assert cs[|cs| - 1] == Ok(Some(Gather(cs).value[j]));
    }
  }

  lemma {:induction false} GatherKeepsHit<T>(cs: seq<Result<Option<T>>>, i: int)
    requires Gather(cs).Ok? && 0 <= i < |cs| && cs[i].Ok? && cs[i].value.Some?
    ensures cs[i].value.value in Gather(cs).value
    decreases |cs|
  {
    var init := cs[..|cs| - 1];
    if i < |init| {
      assert init[i] == cs[i];
      GatherKeepsHit(init, i);
    }
  }

  // ---------------------------------------------------------------------
  // Properties of a search

  /** A search that succeeds classified every listed item without failure. */
  lemma SearchOkItemOk(items: seq<Item>, postfix: string, path: string, query: string, i: int)
    requires SearchOver(items, postfix, path, query).Ok? && 0 <= i < |items|
    ensures Classify(items[i], postfix, path, query).Ok?
  {
    GatherOkAll(Classified(items, postfix, path, query), i);
  }

  /** A search that fails fails with the error of some listed item. */
  lemma SearchErrFromItem(items: seq<Item>, postfix: string, path: string, query: string)
    requires SearchOver(items, postfix, path, query).Err?
    ensures exists i :: 0 <= i < |items| && Classify(items[i], postfix, path, query) == Err(SearchOver(items, postfix, path, query).error)
  {
    GatherErrFrom(Classified(items, postfix, path, query));
  }

  /** Every hit is what some listed item classifies as. */
  lemma SearchHitHasItem(items: seq<Item>, postfix: string, path: string, query: string, j: int)
    requires SearchOver(items, postfix, path, query).Ok?
    requires 0 <= j < |SearchOver(items, postfix, path, query).value|
    ensures exists i :: 0 <= i < |items| && Classify(items[i], postfix, path, query) == Ok(Some(SearchOver(items, postfix, path, query).value[j]))
  {
    GatherHitFrom(Classified(items, postfix, path, query), j);
  }

  /** Every item that classifies as a hit is among the hits of a successful search. */
  lemma SearchKeepsHit(items: seq<Item>, postfix: string, path: string, query: string, i: int)
    requires SearchOver(items, postfix, path, query).Ok?
    requires 0 <= i < |items| && Classify(items[i], postfix, path, query).Ok?
    requires Classify(items[i], postfix, path, query).value.Some?
    ensures Classify(items[i], postfix, path, query).value.value in SearchOver(items, postfix, path, query).value
  {
    GatherKeepsHit(Classified(items, postfix, path, query), i);
  }

  /**
   * A hit keeps the item's size; a directory hit is the key of a marker
   * with the postfix trimmed, never the searched directory itself; a file
   * hit is the key itself.
   */
  lemma ClassifyHitShape(item: Item, postfix: string, path: string, query: string)
    requires Classify(item, postfix, path, query).Ok? && Classify(item, postfix, path, query).value.Some?
    ensures var x, name := Classify(item, postfix, path, query).value.value, item.objectName;
      name != path + postfix && x.size == item.size && x.isDir == EndsWith(name, postfix) &&
      (if x.isDir then x.path + postfix == name && x.path != path else x.path == name)
  {
    var name := item.objectName;
    if EndsWith(name, postfix) {
      assert name[..|name| - |postfix|] + postfix == name;
    }
  }

  /**
   * A file key `d/b` is matched by its last name `b`: it is a hit, with its
   * key as path, exactly when `b` contains the query, ignoring case.
   */
  lemma ClassifyFile(d: string, b: string, size: nat, postfix: string, path: string, query: string)
    requires d != "" && IsName(b) && '\0' !in d && '\0' !in b
    requires !EndsWith(d + "/" + b, postfix)
    ensures Classify(Item(d + "/" + b, false, size), postfix, path, query) ==
      if Contains(Lower(b), Lower(query)) then Ok(Some(Resource(d + "/" + b, false, size))) else Ok(None)
  {
    ParentFromEndOfAppend(d, b);
    EndsWithAppend(path, postfix);
  }

  /**
   * The marker `d/` + postfix of a directory whose last name is `b` is
   * matched by `b` and reported as the directory `d/`.
   */
  lemma ClassifyMarker(d: string, b: string, size: nat, postfix: string, path: string, query: string)
    requires d != "" && IsName(postfix) && '\0' !in postfix && '\0' !in d
    requires ParentFromEndAtN(d, 0) == Ok(b)
    requires d + "/" + postfix != path + postfix
    ensures Classify(Item(d + "/" + postfix, false, size), postfix, path, query) ==
      if Contains(Lower(b), Lower(query)) then Ok(Some(Resource(d + "/", true, size))) else Ok(None)
  {
    var name := d + "/" + postfix;
    EndsWithAppend(d + "/", postfix);
    ParentFromEndOfAppendShift(d, postfix, 0);
    assert name[..|name| - |postfix|] == d + "/";
    ClassifyEndingInPostfix(name, b, size, postfix, path, query);
  }

  /** A key ending in the postfix is matched by the name before it, and reported with the postfix trimmed. */
  lemma ClassifyEndingInPostfix(name: string, b: string, size: nat, postfix: string, path: string, query: string)
    requires EndsWith(name, postfix) && name != path + postfix && ParentFromEndAtN(name, 1) == Ok(b)
    ensures Classify(Item(name, false, size), postfix, path, query) ==
      if Contains(Lower(b), Lower(query)) then Ok(Some(Resource(name[..|name| - |postfix|], true, size))) else Ok(None)
  {
  }

  /**
   * A marker key with no directory name before it (`$` itself, say), other
   * than the searched directory's own marker, makes the search fail.
   */
  lemma ClassifyRootMarkerFails(name: string, size: nat, postfix: string, path: string, query: string)
    requires IsName(name) && '\0' !in name && EndsWith(name, postfix)
    requires name != path + postfix
    ensures Classify(Item(name, false, size), postfix, path, query) == Err(IllegalArgument)
  {
    ParentFromEndOfOneName(name, name);
  }
}
