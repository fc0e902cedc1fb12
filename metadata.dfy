/**
 * Reading the virtual filesystem: the resource a path names, whether a
 * path exists, and the listing of a directory with its markers hidden.
 * A directory `d/` exists through its marker object `d/` + postfix.
 */
module Metadata {
  import opened Strings
  import opened Errors
  import opened PathUtils
  import opened Store

  /** What the services report about a file or a directory. */
  datatype Resource = Resource(path: string, isDir: bool, size: nat)

  /** A path names a directory exactly when it ends in '/'. */
  predicate IsDir(path: string) {
    EndsWith(path, "/")
  }

  /** The path that is stat'ed for `path`: a directory's marker, or the file itself. */
  function StatPath(postfix: string, path: string): string {
    if IsDir(path) then path + postfix else path
  }

  /**
   * `getResource`: a directory is reported under the requested path with
   * its marker's size, a file under its normalised key with its size.
   */
  function GetResource(m: Objects, faults: Faults, postfix: string, path: string): (r: Result<Resource>)
    ensures var k := Normalize(StatPath(postfix, path));
      (r.Ok? <==> faults(StatReq(k)) == NoFault && k in m) &&
      (r.Ok? ==> r.value == Resource(if IsDir(path) then path else k, IsDir(path), m[k])) &&
      (r.Err? ==> r.error == if faults(StatReq(k)) == ClientFailure then StoreError else NotFound)
  {
    match StatResult(m, faults, StatPath(postfix, path))
    case Err(e) => Err(e)
    case Ok(stat) => Ok(Resource(if IsDir(path) then path else stat.key, IsDir(path), stat.size))
  }

  /**
   * `get` of the older services: like `GetResource`, but the path reported
   * is the stat'ed key itself, so a directory comes back as its marker key.
   */
  function GetStatedResource(m: Objects, faults: Faults, postfix: string, path: string): (r: Result<Resource>)
    ensures var k := Normalize(StatPath(postfix, path));
      (r.Ok? <==> faults(StatReq(k)) == NoFault && k in m) &&
      (r.Ok? ==> r.value == Resource(k, IsDir(path), m[k])) &&
      (r.Err? ==> r.error == if faults(StatReq(k)) == ClientFailure then StoreError else NotFound)
  {
    match StatResult(m, faults, StatPath(postfix, path))
    case Err(e) => Err(e)
    case Ok(stat) => Ok(Resource(stat.key, IsDir(path), stat.size))
  }

  /**
   * `existsByPath` (stat based): a successful stat means present, the
   * store's error response means absent, a client failure propagates.
   */
  function StatExists(m: Objects, faults: Faults, postfix: string, path: string): (r: Result<bool>)
    ensures var k := Normalize(StatPath(postfix, path));
      (r == Ok(true) <==> faults(StatReq(k)) == NoFault && k in m) &&
      (r == Ok(false) <==> faults(StatReq(k)) == ErrorResponse || (faults(StatReq(k)) == NoFault && k !in m)) &&
      (r.Err? <==> faults(StatReq(k)) == ClientFailure) &&
      (r.Err? ==> r.error == StoreError)
  {
    KeyExists(m, faults, Normalize(StatPath(postfix, path)))
  }

  /** The existence check on key `k`: present, absent (or an error response), or a client failure. */
  function KeyExists(m: Objects, faults: Faults, k: string): Result<bool> {
    match Lookup(m, faults(StatReq(k)), k)
    case Ok(_) => Ok(true)
    case Err(e) => if e == NotFound then Ok(false) else Err(e)
  }

  /** A listing entry as a resource. */
  function AsResource(item: Item): Resource {
    Resource(item.objectName, item.isDir, item.size)
  }

  /** The listing entries whose names do not end in the postfix, in order, as resources. */
  function Visible(items: seq<Item>, postfix: string): (r: seq<Resource>)
    ensures |r| <= |items|
    ensures forall j :: 0 <= j < |r| ==> !EndsWith(r[j].path, postfix)
  {
    if items == [] then []
    else
      var it := items[|items| - 1];
      Visible(items[..|items| - 1], postfix) + if EndsWith(it.objectName, postfix) then [] else [AsResource(it)]
  }

  /**
   * `listFiles`: only a directory can be listed; it must have at least one
   * key under its marker path; the listing comes back with every name that
   * ends in the postfix hidden.
   */
  function ListFiles(m: Objects, faults: Faults, postfix: string, path: string, recursive: bool): (r: Result<seq<Resource>>)
    ensures r == Err(InvalidPath) <==> !IsDir(path)
    ensures r.Ok? ==>
      faults(ListReq(Normalize(path + postfix), false)) == NoFault && faults(ListReq(Normalize(path), recursive)) == NoFault
  {
    if !IsDir(path) then Err(InvalidPath)
    else match ListResult(m, faults, path + postfix, false)
      case Err(e) => Err(e)
      case Ok(markers) =>
        if markers == [] then Err(NotFound)
        else match ListResult(m, faults, path, recursive)
          case Err(e) => Err(e)
          case Ok(items) => Ok(Visible(items, postfix))
  }

  /**
   * `listResources` / `list` of the older services: the path must pass the
   * stat-based existence check (a directory through its marker); files are
   * not refused.
   */
  function ListResources(m: Objects, faults: Faults, postfix: string, path: string, recursive: bool): (r: Result<seq<Resource>>)
    ensures var k := Normalize(StatPath(postfix, path));
      (r.Ok? ==> faults(StatReq(k)) == NoFault && k in m) &&
      (faults(StatReq(k)) == NoFault && k !in m ==> r == Err(NotFound))
  {
    match StatExists(m, faults, postfix, path)
    case Err(e) => Err(e)
    case Ok(present) =>
      if !present then Err(NotFound)
      else match ListResult(m, faults, path, recursive)
        case Err(e) => Err(e)
        case Ok(items) => Ok(Visible(items, postfix))
  }
}
