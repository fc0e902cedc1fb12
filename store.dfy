/**
 * The object-store gateway: a bucket is a flat map from keys to object
 * sizes. Every gateway operation normalises its key(s) before the request
 * reaches the bucket and maps the store's failures to the storage layer's
 * errors.
 *
 * Failures of the store are drawn from an oracle: for every request (on
 * normalised keys) it says whether the server answers normally, answers
 * with an error response, or the client fails before an answer (I/O,
 * credentials, ...). An absent key always draws an error response. The
 * oracle also gives the store's verdict on each key of a batch delete: a
 * key it refuses is reported back as a per-key error and stays.
 */
module Store {
  import opened Strings
  import opened Errors
  import opened PathUtils
  import opened SortedKeys

  type Objects = map<string, nat>

  /** An entry of a listing: an object, or a common prefix flagged as a directory. */
  datatype Item = Item(objectName: string, isDir: bool, size: nat)

  /** What a stat or a download yields: the object's key and its size. */
  datatype Stat = Stat(key: string, size: nat)

  datatype Fault = NoFault | ErrorResponse | ClientFailure

  /** A request as the bucket receives it, keys already normalised. */
  datatype Request =
    | StatReq(key: string)
    | ListReq(prefix: string, recursive: bool)
    | GetReq(key: string)
    | PutReq(key: string)
    | CreateReq(key: string)
    | DeleteReq(keys: set<string>)
    | DeleteKeyReq(key: string)
    | CopyReq(source: string, target: string)

  type Faults = Request -> Fault

  /** The result of a state-changing request together with the bucket after it. */
  datatype Outcome<T> = Outcome(result: Result<T>, objects: Objects)

  // ---------------------------------------------------------------------
  // Reads

  /**
   * A stat or a download of key `k` under fault `f`: an error response
   * (the store's "no such key" among them) is NotFound, a client failure a
   * generic store error.
   */
  function Lookup(m: Objects, f: Fault, k: string): (r: Result<Stat>)
    ensures r.Ok? <==> f == NoFault && k in m
    ensures r.Ok? ==> r.value == Stat(k, m[k])
    ensures r.Err? ==> r.error == (if f == ClientFailure then StoreError else NotFound)
  {
    match f
    case ClientFailure => Err(StoreError)
    case ErrorResponse => Err(NotFound)
    case NoFault => if k in m then Ok(Stat(k, m[k])) else Err(NotFound)
  }

  /** `getObject`: stat of the normalised key. */
  function StatResult(m: Objects, faults: Faults, path: string): Result<Stat> {
    var k := Normalize(path);
    Lookup(m, faults(StatReq(k)), k)
  }

  /** `downloadObject`: the object at the normalised key (its size stands for its contents). */
  function DownloadResult(m: Objects, faults: Faults, path: string): Result<Stat> {
    var k := Normalize(path);
    Lookup(m, faults(GetReq(k)), k)
  }

  /** The keys that start with prefix `p`. */
  function Under(m: Objects, p: string): (r: set<string>)
    ensures forall k :: k in r <==> k in m && StartsWith(k, p)
  {
    set k | k in m && StartsWith(k, p)
  }

  /** For a key below `p` with a further '/', the prefix up to and including that first '/'. */
  function CommonPrefix(p: string, k: string): (c: string)
    requires StartsWith(k, p) && '/' in k[|p|..]
    ensures |p| < |c| <= |k| && c == k[..|c|] && c[|c| - 1] == '/' && '/' !in c[|p|..|c| - 1]
  {
    var j := IndexOf(k[|p|..], '/');
    assert k[|p|..][..j] == k[|p|..|p| + j];
    k[..|p| + j + 1]
  }

  /** Keys directly below `p`: no '/' after the prefix. */
  function Direct(m: Objects, p: string): set<string> {
    set k | k in m && StartsWith(k, p) && '/' !in k[|p|..]
  }

  /** The common prefixes (the directory entries) of the keys below `p`. */
  function Prefixes(m: Objects, p: string): set<string> {
    set k | k in m && StartsWith(k, p) && '/' in k[|p|..] :: CommonPrefix(p, k)
  }

  /** The entries for `names`, those in `dirs` as directories of size 0. */
  function Items(m: Objects, names: seq<string>, dirs: set<string>): (r: seq<Item>)
    requires forall i :: 0 <= i < |names| ==> names[i] in dirs || names[i] in m
    ensures |r| == |names|
    ensures forall i :: 0 <= i < |r| ==> r[i].objectName == names[i] && r[i].isDir == (names[i] in dirs)
    ensures forall i :: 0 <= i < |r| ==> r[i].size == if names[i] in dirs then 0 else m[names[i]]
  {
    if names == [] then []
    else
      var n := names[|names| - 1];
      Items(m, names[..|names| - 1], dirs) + [if n in dirs then Item(n, true, 0) else Item(n, false, m[n])]
  }

  /** The names a listing of `p` reports, in listing order. */
  function ListedNames(m: Objects, p: string, recursive: bool): (names: seq<string>)
    ensures forall i :: 0 <= i < |names| ==> names[i] in m || (!recursive && names[i] in Prefixes(m, p))
  {
    if recursive then
      var names := Sorted(Under(m, p));
      assert forall i :: 0 <= i < |names| ==> names[i] in Under(m, p);
      names
    else
      var s := Direct(m, p) + Prefixes(m, p);
      var names := Sorted(s);
      assert forall i :: 0 <= i < |names| ==> names[i] in s;
      names
  }

  /**
   * A listing of prefix `p`: recursively every key below `p`; otherwise the
   * keys directly below `p` and the common prefixes of the deeper ones.
   */
  function Listing(m: Objects, p: string, recursive: bool): seq<Item> {
    Items(m, ListedNames(m, p, recursive), if recursive then {} else Prefixes(m, p))
  }

  /** `getListObjects`: the listing of the normalised prefix, or a store error. */
  function ListResult(m: Objects, faults: Faults, path: string, recursive: bool): Result<seq<Item>> {
    var p := Normalize(path);
    if faults(ListReq(p, recursive)) != NoFault then Err(StoreError) else Ok(Listing(m, p, recursive))
  }

  // ---------------------------------------------------------------------
  // Writes

  /**
   * `uploadObject`: a conditional put of `size` bytes at the normalised
   * `path + fileName`. The store refuses the write when the key exists (the
   * `If-None-Match: *` precondition of section 13.1.2 of RFC 9110).
   */
  function PutOutcome(m: Objects, faults: Faults, path: string, fileName: string, size: nat): Outcome<string> {
    PutKey(m, faults, Normalize(path + fileName), size)
  }

  /** The conditional put of `size` bytes at key `k`, which the store reports back. */
  function PutKey(m: Objects, faults: Faults, k: string, size: nat): Outcome<string> {
    var f := faults(PutReq(k));
    if f == ClientFailure then Outcome(Err(StoreError), m)
    else if k in m then Outcome(Err(AlreadyExists), m)
    else if f == ErrorResponse then Outcome(Err(StoreError), m)
    else Outcome(Ok(k), m[k := size])
  }

  /** `createEmptyObject`: an unconditional zero-byte put at the normalised key. */
  function CreateOutcome(m: Objects, faults: Faults, path: string): Outcome<()> {
    var k := Normalize(path);
    var f := faults(CreateReq(k));
    if f == ClientFailure then Outcome(Err(StoreError), m)
    else if f == ErrorResponse then Outcome(Err(NotFound), m)
    else Outcome(Ok(()), m[k := 0])
  }

  /**
   * `copy`: the target takes the source's size. The store refuses to copy
   * a missing source or a key onto itself; every refusal is InvalidPath.
   */
  function CopyOutcome(m: Objects, faults: Faults, from: string, to: string): Outcome<()> {
    CopyKey(m, faults, Normalize(from), Normalize(to))
  }

  /** The copy of key `s` onto key `t`. */
  function CopyKey(m: Objects, faults: Faults, s: string, t: string): Outcome<()> {
    var f := faults(CopyReq(s, t));
    if f == ClientFailure then Outcome(Err(StoreError), m)
    else if f == ErrorResponse || s !in m || s == t then Outcome(Err(InvalidPath), m)
    else Outcome(Ok(()), m[t := m[s]])
  }

  /** The normalised keys of `paths`. */
  function KeySet(paths: seq<string>): set<string> {
    set i | 0 <= i < |paths| :: Normalize(paths[i])
  }

  /** The normalised keys of `paths`, in order. */
  function NormalKeys(paths: seq<string>): (ks: seq<string>)
    ensures |ks| == |paths| && forall i :: 0 <= i < |paths| ==> ks[i] == Normalize(paths[i])
  {
    seq(|paths|, i requires 0 <= i < |paths| => Normalize(paths[i]))
  }

  /** The keys a sequence holds. */
  function Elements(keys: seq<string>): (s: set<string>)
    ensures forall k :: k in s <==> k in keys
  {
    set k | k in keys
  }

  /** The client sends the keys of a batch delete in requests of at most this many keys. */
  const DeleteBatchSize := 1000

  /** How many of `keys` the next delete request carries. */
  function BatchLength(keys: seq<string>): (n: nat)
    requires keys != []
    ensures 0 < n <= |keys| && n <= DeleteBatchSize
    ensures n < DeleteBatchSize ==> n == |keys|
  {
    if |keys| < DeleteBatchSize then |keys| else DeleteBatchSize
  }

  /** The keys of a delete request the store removes: those it reports no error for. */
  function Accepted(faults: Faults, keys: set<string>): (r: set<string>)
    ensures forall k :: k in r <==> k in keys && faults(DeleteKeyReq(k)) == NoFault
  {
    set k | k in keys && faults(DeleteKeyReq(k)) == NoFault
  }

  /**
   * The delete requests for `keys`, in order, each carrying the next
   * `DeleteBatchSize` keys. A key the store refuses stays, and the
   * refusal, reported as a per-key result, is not an error. A request that
   * fails is a store error and ends the run, with the requests before it
   * applied.
   */
  function RemoveBatches(m: Objects, faults: Faults, keys: seq<string>): Outcome<()>
    decreases |keys|
  {
    if keys == [] then Outcome(Ok(()), m)
    else
      var n := BatchLength(keys);
      var batch := Elements(keys[..n]);
      if faults(DeleteReq(batch)) != NoFault then Outcome(Err(StoreError), m)
      else RemoveBatches(m - Accepted(faults, batch), faults, keys[n..])
  }

  /** `deleteObjects`: the delete requests for the normalised keys of `paths`. */
  function DeleteOutcome(m: Objects, faults: Faults, paths: seq<string>): Outcome<()> {
    RemoveBatches(m, faults, NormalKeys(paths))
  }

  // ---------------------------------------------------------------------
  // The gateway object

  /** Gathers the entries the store streams back, one at a time. */
  method Collect(listed: seq<Item>) returns (items: seq<Item>)
    ensures items == listed
  {
    items := [];
    var i := 0;
    while i < |listed|
      invariant 0 <= i <= |listed| && items == listed[..i]
    {
      items := items + [listed[i]];
      i := i + 1;
    }
  }

  class Bucket {
    var objects: Objects
    const faults: Faults

    constructor (objects: Objects, faults: Faults)
      ensures this.objects == objects && this.faults == faults
    {
      this.objects := objects;
      this.faults := faults;
    }

    method GetObject(path: string) returns (r: Result<Stat>)
      ensures r == StatResult(objects, faults, path)
    {
      var k := Normalize(path);
      r := Lookup(objects, faults(StatReq(k)), k);
    }

    /** Collects the store's listing item by item; any failure is a store error. */
    method GetListObjects(path: string, recursive: bool) returns (r: Result<seq<Item>>)
      ensures r == ListResult(objects, faults, path, recursive)
    {
      var p := Normalize(path);
      if faults(ListReq(p, recursive)) != NoFault {
        return Err(StoreError);
      }
      var items := Collect(Listing(objects, p, recursive));
      r := Ok(items);
    }

    method DownloadObject(path: string) returns (r: Result<Stat>)
      ensures r == DownloadResult(objects, faults, path)
    {
      var k := Normalize(path);
      r := Lookup(objects, faults(GetReq(k)), k);
    }

    method UploadObject(path: string, fileName: string, size: nat) returns (r: Result<string>)
      modifies this
      ensures Outcome(r, objects) == PutOutcome(old(objects), faults, path, fileName, size)
    {
      var o := PutOutcome(objects, faults, path, fileName, size);
      r, objects := o.result, o.objects;
    }

    /**
     * Sends the delete requests batch by batch and reads each one's
     * per-key results: a key the store refused is passed over, a request
     * that failed is a store error.
     */
    method DeleteObjects(paths: seq<string>) returns (r: Result<()>)
      modifies this
      ensures Outcome(r, objects) == DeleteOutcome(old(objects), faults, paths)
    {
      var keys := NormalKeys(paths);
      var i := 0;
      while i < |keys|
        invariant 0 <= i <= |keys|
        invariant RemoveBatches(objects, faults, keys[i..]) == DeleteOutcome(old(objects), faults, paths)
        decreases |keys| - i
      {
        var n := BatchLength(keys[i..]);
        assert keys[i..][..n] == keys[i..i + n] && keys[i..][n..] == keys[i + n..];
        var batch := Elements(keys[i..i + n]);
        if faults(DeleteReq(batch)) != NoFault {
          return Err(StoreError);
        }
        objects := objects - Accepted(faults, batch);
        i := i + n;
      }
      r := Ok(());
    }

    method CreateEmptyObject(path: string) returns (r: Result<()>)
      modifies this
      ensures Outcome(r, objects) == CreateOutcome(old(objects), faults, path)
    {
      var o := CreateOutcome(objects, faults, path);
      r, objects := o.result, o.objects;
    }

    method Copy(from: string, to: string) returns (r: Result<()>)
      modifies this
      ensures Outcome(r, objects) == CopyOutcome(old(objects), faults, from, to)
    {
      var o := CopyOutcome(objects, faults, from, to);
      r, objects := o.result, o.objects;
    }
  }
}
