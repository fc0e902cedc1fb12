/**
 * Changing the virtual filesystem: uploading files (all or nothing, then
 * the markers of their ancestor directories), deleting everything below a
 * path, creating an empty directory, and moving a file or a whole
 * directory. Each operation is a function from the bucket before it to
 * its result and the bucket after it; a failing store request ends the
 * operation with the requests before it applied.
 */
module Manipulation {
  import opened Strings
  import opened Errors
  import opened PathUtils
  import opened Store
  import opened Metadata
  import opened Steps

  /** One file of a multipart upload: its original name, possibly missing, and its size. */
  datatype Upload = Upload(name: Option<string>, size: nat)

  /** Where a loop that writes keys stands: the keys written, its result, the bucket. */
  datatype Batch = Batch(written: seq<string>, result: Result<()>, objects: Objects)

  /** A file name the upload accepts: present and not empty. */
  predicate NamePresent(f: Upload) {
    f.name.Some? && f.name.value != ""
  }

  /** The key and size one upload writes, once its name is accepted. */
  datatype Put = Put(key: string, size: nat)

  /** Each file's put: its normalised key `path` + name, or None when its name is missing or empty. */
  function Puts(path: string, files: seq<Upload>): (ps: seq<Option<Put>>)
    ensures |ps| == |files|
    ensures forall i :: 0 <= i < |files| ==>
      ps[i] == if NamePresent(files[i]) then Some(Put(Normalize(path + files[i].name.value), files[i].size)) else None
  {
    seq(|files|, i requires 0 <= i < |files| =>
      if NamePresent(files[i]) then Some(Put(Normalize(path + files[i].name.value), files[i].size)) else None)
  }

  /**
   * The puts in turn, each refused over an existing key; a rejected name
   * or a refused put stops the loop. The written keys are those the store
   * reports.
   */
  function PutAll(m: Objects, faults: Faults, ps: seq<Option<Put>>): (b: Batch)
    ensures |b.written| <= |ps|
    decreases |ps|
  {
    if ps == [] then Batch([], Ok(()), m)
    else
      var b := PutAll(m, faults, ps[..|ps| - 1]);
      if b.result.Err? then b
      else
        match ps[|ps| - 1]
        case None => Batch(b.written, Err(InvalidFile), b.objects)
        case Some(p) =>
          var o := PutKey(b.objects, faults, p.key, p.size);
          match o.result
          case Err(e) => Batch(b.written, Err(e), o.objects)
          case Ok(k) => Batch(b.written + [k], Ok(()), o.objects)
  }

  /**
   * The upload loop: each file put at `path` + its name in turn (never
   * over an existing key); a missing or empty name or a refused put stops
   * it.
   */
  function PutEach(m: Objects, faults: Faults, path: string, files: seq<Upload>): (b: Batch) {
    PutAll(m, faults, Puts(path, files))
  }

  /**
   * The markers written for `keys`: for each key in turn, the directories
   * `getNestedDirectories(base, key)` lists, each closed by the postfix.
   */
  function MarkersOf(base: string, keys: seq<string>, postfix: string): seq<string>
    decreases |keys|
  {
    if keys == [] then []
    else MarkersOf(base, keys[..|keys| - 1], postfix) + WithPostfix(NestedDirectories(base, keys[|keys| - 1]), postfix)
  }

  /**
   * `uploadResource`: on a failure every key written so far is deleted
   * again and the failure reported (a failing delete ends the rollback and
   * is reported instead); on success the ancestor markers are written.
   */
  function UploadResource(m: Objects, faults: Faults, postfix: string, path: string, files: seq<Upload>): Outcome<()> {
    var b := PutEach(m, faults, path, files);
    if b.result.Err? then
      var rb := DeleteEach(b.objects, faults, b.written);
      Outcome(if rb.result.Err? then rb.result else b.result, rb.objects)
    else CreateEach(b.objects, faults, MarkersOf(path, b.written, postfix))
  }

  /** The names of listed items, in order. */
  function ObjectNames(items: seq<Item>): (r: seq<string>)
    ensures |r| == |items| && forall i :: 0 <= i < |items| ==> r[i] == items[i].objectName
  {
    seq(|items|, i requires 0 <= i < |items| => items[i].objectName)
  }

  /**
   * `deleteResource`: every key listed below `path` is deleted one by one;
   * any failure, of the listing or of a delete, is a partial deletion.
   */
  function DeleteResource(m: Objects, faults: Faults, path: string): (r: Outcome<()>)
    ensures r.result.Err? ==> r.result.error == PartialDeletion
  {
    match ListResult(m, faults, path, true)
    case Err(_) => Outcome(Err(PartialDeletion), m)
    case Ok(items) =>
      var o := DeleteEach(m, faults, ObjectNames(items));
      Outcome(if o.result.Err? then Err(PartialDeletion) else Ok(()), o.objects)
  }

  /** `createEmptyDirectory`: the marker of `path`, an empty object. */
  function CreateEmptyDirectory(m: Objects, faults: Faults, postfix: string, path: string): Outcome<()> {
    CreateOutcome(m, faults, path + postfix)
  }

  /**
   * Moving a file: refused if `to` exists; then the markers of the
   * ancestors of `to` (each directory followed by `markerSuffix`) are
   * written and the data transferred.
   */
  function MoveFile(m: Objects, faults: Faults, postfix: string, markerSuffix: string, from: string, to: string): Outcome<Resource> {
    match StatExists(m, faults, postfix, to)
    case Err(e) => Outcome(Err(e), m)
    case Ok(exists_) =>
      if exists_ then Outcome(Err(AlreadyExists), m)
      else
        var o1 := CreateEach(m, faults, WithPostfix(NestedDirectories("", to), markerSuffix));
        if o1.result.Err? then Outcome(Err(o1.result.error), o1.objects)
        else Transfer(o1.objects, faults, from, to)
  }

  /**
   * The data-moving part of a file move: `from` is stat'ed, the key the
   * stat reports is copied to `to` and deleted; the result reports `to`
   * with the size of `from`.
   */
  function Transfer(m: Objects, faults: Faults, from: string, to: string): Outcome<Resource> {
    match StatResult(m, faults, from)
    case Err(e) => Outcome(Err(e), m)
    case Ok(stat) =>
      var o2 := CopyOutcome(m, faults, stat.key, to);
      if o2.result.Err? then Outcome(Err(o2.result.error), o2.objects)
      else
        var o3 := DeleteOutcome(o2.objects, faults, [stat.key]);
        if o3.result.Err? then Outcome(Err(o3.result.error), o3.objects)
        else Outcome(Ok(Resource(to, false, stat.size)), o3.objects)
  }

  /** The destination of listed key `name` when `from` moves to `to`: its first `|from|` characters replaced. */
  function Relocate(name: string, from: string, to: string): (r: Result<string>)
    ensures r.Ok? <==> |from| <= |name|
    ensures r.Ok? ==> r.value == to + name[|from|..]
    ensures r.Err? ==> r.error == OutOfBounds
  {
    if |from| <= |name| then Ok(to + name[|from|..]) else Err(OutOfBounds)
  }

  /** Where the copy loop of a directory move stands. */
  datatype Copying = Copying(sources: seq<string>, targets: seq<string>, result: Result<()>, objects: Objects)

  /**
   * What the copy loop does with one listed key: nothing but fail when it
   * cannot be relocated; otherwise check the destination (the key its
   * existence check stats) and copy the source key onto the target key.
   */
  datatype CopyPlan =
    | Refused(error: Error)
    | Planned(name: string, dest: string, statKey: string, source: string, target: string)

  function Plan(item: Item, postfix: string, from: string, to: string): CopyPlan {
    match Relocate(item.objectName, from, to)
    case Err(e) => Refused(e)
    case Ok(dest) => Planned(item.objectName, dest, Normalize(StatPath(postfix, dest)), Normalize(item.objectName), Normalize(dest))
  }

  /** The plan of each listed key, in listing order. */
  function Plans(items: seq<Item>, postfix: string, from: string, to: string): (ps: seq<CopyPlan>)
    ensures |ps| == |items|
    ensures forall i :: 0 <= i < |items| ==> ps[i] == Plan(items[i], postfix, from, to)
  {
    seq(|items|, i requires 0 <= i < |items| => Plan(items[i], postfix, from, to))
  }

  /**
   * The plans carried out in turn: a destination that exists is refused,
   * and the first failure stops the loop.
   */
  function CopyAll(m: Objects, faults: Faults, ps: seq<CopyPlan>): (c: Copying)
    ensures |c.sources| == |c.targets| <= |ps|
    decreases |ps|
  {
    if ps == [] then Copying([], [], Ok(()), m)
    else
      var c := CopyAll(m, faults, ps[..|ps| - 1]);
      if c.result.Err? then c
      else
        match ps[|ps| - 1]
        case Refused(e) => Copying(c.sources, c.targets, Err(e), c.objects)
        case Planned(name, dest, statKey, source, target) =>
          match KeyExists(c.objects, faults, statKey)
          case Err(e) => Copying(c.sources, c.targets, Err(e), c.objects)
          case Ok(exists_) =>
            if exists_ then Copying(c.sources, c.targets, Err(AlreadyExists), c.objects)
            else
              var o := CopyKey(c.objects, faults, source, target);
              if o.result.Err? then Copying(c.sources, c.targets, o.result, o.objects)
              else Copying(c.sources + [name], c.targets + [dest], Ok(()), o.objects)
  }

  /**
   * The copy loop of a directory move: each listed key is copied to its
   * destination, which must not exist yet; the first failure stops it.
   */
  function CopyEach(m: Objects, faults: Faults, postfix: string, from: string, to: string, items: seq<Item>): Copying {
    CopyAll(m, faults, Plans(items, postfix, from, to))
  }

  /**
   * Moving a directory: everything listed below `from` is copied first; on
   * a failure the copies are deleted again (a failing delete ends the
   * rollback and is reported instead). On success the sources are deleted,
   * then the markers of the destinations' ancestors are written.
   */
  function MoveDirectory(m: Objects, faults: Faults, postfix: string, from: string, to: string): Outcome<Resource> {
    match ListResult(m, faults, from, true)
    case Err(e) => Outcome(Err(e), m)
    case Ok(items) => MoveListed(m, faults, postfix, from, to, items)
  }

  /** A directory move once the keys below `from` are listed. */
  function MoveListed(m: Objects, faults: Faults, postfix: string, from: string, to: string, items: seq<Item>): Outcome<Resource> {
    var c := CopyEach(m, faults, postfix, from, to, items);
    if c.result.Err? then
      var rb := DeleteEach(c.objects, faults, c.targets);
      Outcome(Err(if rb.result.Err? then rb.result.error else c.result.error), rb.objects)
    else
      var d := DeleteEach(c.objects, faults, c.sources);
      if d.result.Err? then Outcome(Err(d.result.error), d.objects)
      else
        var mk := CreateEach(d.objects, faults, MarkersOf("", c.targets, postfix));
        if mk.result.Err? then Outcome(Err(mk.result.error), mk.objects)
        else Outcome(Ok(Resource(to, true, 0)), mk.objects)
  }

  /**
   * `moveResource`: a directory move when `from` ends in '/', a file move
   * otherwise. The file move's markers carry the postfix twice: the
   * directory passed to `createEmptyDirectory` already ends in it.
   */
  function MoveResource(m: Objects, faults: Faults, postfix: string, from: string, to: string): Outcome<Resource> {
    if EndsWith(from, "/") then MoveDirectory(m, faults, postfix, from, to)
    else MoveFile(m, faults, postfix, postfix + postfix, from, to)
  }
}
