# A hierarchical filesystem over a flat object store

This project models the storage layer of a cloud file-storage service, in Dafny. The service
keeps every user's files in one MinIO bucket, which only knows flat keys: stat, list by prefix,
put, copy and batch delete. On top of it the service presents folders. A folder `dir/` exists
when its zero-byte *marker* object `dir/` + `folderPostfix` (by default `$`) exists.

The model covers:

- the path helpers:
  - key normalisation (`normalizePathMinioCompatible`);
  - name extraction (`getParentFromEndAtN`);
  - ancestor enumeration (`getNestedDirectories`);
  - breadcrumbs and request-path validation;
  - the per-user key prefix and the stricter request-path constraint.
- the store gateway. It normalises every key and maps store failures to the layer's errors:
  not found, already exists, invalid path, generic store error.
- the metadata service: stat a path, and list a directory with markers hidden.
- the manipulation service:
  - all-or-nothing upload with rollback;
  - prefix delete;
  - file move;
  - directory move (copy first, roll back on failure, then delete and write markers);
  - marker creation.
- the search service: a case-insensitive substring match on simple names.
- the download service: the file/zip dispatch and the zip entry names.
- the older monolithic repository. Its upload has no rollback and its directory move works one
  key at a time. The two services split out of it are covered too.

The bucket is the class `Store.Bucket`, with a field `objects: map<string, nat>` from key to
object size. Its methods change that field. Each one's contract ties the new map and the result
to a function of the old map (`Store.PutOutcome`, `Store.CopyOutcome`, ...).

Store failures come from an oracle `faults: Request -> Fault`. For each request on normalised keys
it says one of three things:

- the server answers normally;
- the server answers with an error response (an absent key always draws one);
- the client fails before any answer.

The oracle also gives the server's verdict on each key of a batch delete. A key it refuses comes
back as a per-key error, and that key stays. The gateway never reads those errors, so the call
still succeeds. The client sends a batch delete in requests of at most 1000 keys, in order. A
failing request ends the call with the earlier requests already applied.

The gateway maps these cases as its `catch` clauses do. With the oracle, every failure path of
every operation can be reached, and so can every rollback.

Listings follow S3 semantics. A recursive listing names every key below the prefix, in listing
(lexicographic) order. A non-recursive one names the keys directly below the prefix plus the
common prefixes of deeper keys, flagged as directories of size 0.

The services (`ManipulationServiceImpl.ManipulationService`, `Search.SearchService`,
`Legacy.LegacyRepository`) are classes over a bucket. Their loops are `while` loops, and each
loop's invariant says the part of the input done so far equals a specification function on that
prefix. Example: `MarkersRun(..., keys[..i], ...) == Outcome(Ok(()), store.objects)`. The lemmas
then state what the service promises about those specification functions:

- the rollback restores the bucket;
- deletion removes exactly the subtree;
- a directory move puts every key at its relocated key.

Read-only services (metadata, download, the path helpers) are functions.

Modules:

| module | file | what it holds |
|---|---|---|
| Errors | errors.dfy | the error datatype, `Result`, `Option` |
| Strings | strings.dfy | the Java string operations the code uses |
| PathUtils | path_utils.dfy | normalisation, names, nested directories, validation, breadcrumbs |
| PathValidator | path_validator.dfy | the request-path constraint |
| UserPaths | user_paths.dfy | the per-user key prefix |
| SortedKeys | sorted_keys.dfy | listing order |
| Store | store.dfy | the bucket and the gateway |
| StoreFacts | store_facts.dfy | properties of the gateway and of listings |
| Steps | steps.dfy | runs of marker creations and deletes |
| Metadata / MetadataFacts | metadata.dfy, metadata_facts.dfy | stat, existence, listing with markers hidden |
| Manipulation | manipulation.dfy | upload, delete, moves, as functions of the bucket |
| ManipulationServiceImpl | manipulation_service.dfy | the manipulation service class and its loops |
| UploadFacts / DeleteFacts / MoveFacts | upload_facts.dfy, delete_facts.dfy, move_facts.dfy | what uploads, deletes and moves guarantee |
| Search | search.dfy | search, as a function and as the service's loop |
| Download | download.dfy | download dispatch and zip entry names |
| Legacy | legacy.dfy | the older monolithic repository |

Where the code and its documentation disagree, the model follows the code. The lemmas that show
the difference are:

- `PathUtils.NormalizeKeepsSecondLeadingSlash`: `"//path//file"` gives `"/path/file"`.
- `PathUtils.ParentFromEndOfThreeNames`: `("n1/n2/n3", 0)` gives `"n3"`.
- `PathUtils.BreadcrumbOfRootPath`, `PathUtils.BreadcrumbAtNameCount` and
  `PathUtils.BreadcrumbsAtNameCount`: the root breadcrumb comes back where the unit test expects an
  exception. Every invalid row of the test (`PathUtilsTest.java` lines 54-63) starts at the name
  count.
- `PathUtils.NestedDirectoriesAreAncestors`: a trailing `/` counts as one more directory.

## Model

| member | source | states |
|---|---|---|
| PathUtils.NormalizeHasNoSpace | src/main/java/org/example/cloudstorage/util/PathUtils.java:96-99 | no normalised key holds a space: every space becomes '+' |
| PathUtils.NormalizeIdentity | src/main/java/org/example/cloudstorage/util/PathUtils.java:96-99 | a key with no leading '/', no surrounding whitespace, no space and no "//" is its own normal form |
| PathUtils.NormalizeDropsOneSlash | src/main/java/org/example/cloudstorage/util/PathUtils.java:97 | exactly one leading '/' is ignored: normalising "/" + p is normalising p |
| PathUtils.NormalizeExampleLeadingSlash | src/main/java/org/example/cloudstorage/util/PathUtils.java:88 | the documented example: "/path" normalises to "path" |
| PathUtils.NormalizeSlashedCleanNames | src/main/java/org/example/cloudstorage/util/PathUtils.java:96-99 | for clean names x and y, "/" + "/x//y" normalises to "/x/y" |
| PathUtils.NormalizeKeepsSecondLeadingSlash | src/main/java/org/example/cloudstorage/util/PathUtils.java:96-99 | only the first of two leading slashes is dropped before the single "//" to "/" pass, so "//x//y" gives "/x/y" (the documentation at line 89 announces "x/y") |
| PathUtils.NormalizeSlashed | src/main/java/org/example/cloudstorage/util/PathUtils.java:97-98 | for p without spaces or surrounding whitespace, normalising "/" + p is collapsing the "//" of p |
| PathUtils.CollapseSlashesAppend | src/main/java/org/example/cloudstorage/util/PathUtils.java:98 | the "//" pass distributes over a split point no "//" straddles |
| PathUtils.NormalizeKeepsNoDoubleSlash | src/main/java/org/example/cloudstorage/util/PathUtils.java:96-99 | normalising never creates a "//" in a path that has none |
| PathUtils.ValidPathNormalizesCleanly | src/main/java/org/example/cloudstorage/util/PathUtils.java:19-40 | a path `isPathValid` accepts normalises to a key with no space and no "//" |
| PathUtils.Names | src/main/java/org/example/cloudstorage/util/PathUtils.java:118-122 | the name elements of `Paths.get(path)`: the empty path has one empty name, otherwise only non-empty names |
| PathUtils.NamesHaveNoSlash | src/main/java/org/example/cloudstorage/util/PathUtils.java:118-122 | no name element holds a separator |
| PathUtils.NamesAppend | src/main/java/org/example/cloudstorage/util/PathUtils.java:118-122 | appending "/" and a name adds exactly that name |
| PathUtils.NamesRooted | src/main/java/org/example/cloudstorage/util/PathUtils.java:118-122 | a single name below the root is the only name |
| PathUtils.NamesTrailingSlash | src/main/java/org/example/cloudstorage/util/PathUtils.java:118-122 | a trailing separator adds no name |
| PathUtils.NamesSingle | src/main/java/org/example/cloudstorage/util/PathUtils.java:118-122 | a path without separator is one name |
| PathUtils.NamesOfRoot | src/main/java/org/example/cloudstorage/util/PathUtils.java:65-67 | the path "/" has no names |
| PathUtils.NamesKeepOut | src/main/java/org/example/cloudstorage/util/PathUtils.java:118-122 | a character absent from the path is absent from each name |
| PathUtils.ParentFromEndAtN | src/main/java/org/example/cloudstorage/util/PathUtils.java:117-123 | succeeds exactly when n is below the name count (and the path holds no NUL), with a name of the path that holds no '/'; fails with IllegalArgument otherwise |
| PathUtils.ParentFromEndOfAppend | src/main/java/org/example/cloudstorage/util/PathUtils.java:117-123 | counting from the end, name 0 of a/b is b |
| PathUtils.ParentFromEndOfAppendShift | src/main/java/org/example/cloudstorage/util/PathUtils.java:117-123 | counting from the end, name n+1 of a/b is name n of a |
| PathUtils.ParentFromEndOfThree | src/main/java/org/example/cloudstorage/util/PathUtils.java:117-123 | a three-name path read from the end gives the names in reverse and fails at 3 |
| PathUtils.ParentFromEndOfThreeNames | src/test/java/org/example/cloudstorage/util/PathUtilsTest.java:74-96 | the unit-test rows over any names: "/n1/n2/n3" gives n3, n2, n1 for 0, 1, 2 and fails for 3; "n1/n2/n3" with 0 gives n3, not the n1 of the documentation |
| PathUtils.ParentFromEndOfOneName | src/test/java/org/example/cloudstorage/util/PathUtilsTest.java:93-94 | "/n1" and "n1" give n1 at 0 and fail at 1 |
| PathUtils.Chain | src/main/java/org/example/cloudstorage/util/PathUtils.java:143-147 | the joiner's directories, one per name added |
| PathUtils.ChainElement | src/main/java/org/example/cloudstorage/util/PathUtils.java:143-147 | the k-th directory is base + the first k+1 names joined by '/' + "/" |
| PathUtils.GetNestedDirectories | src/main/java/org/example/cloudstorage/util/PathUtils.java:137-149 | the loop growing the joiner and the result list computes `NestedDirectories(base, path)` |
| PathUtils.ChainShape | src/main/java/org/example/cloudstorage/util/PathUtils.java:146 | every directory starts with the base and ends in '/' |
| PathUtils.ChainGrows | src/main/java/org/example/cloudstorage/util/PathUtils.java:145-146 | each directory is a strict prefix of the next |
| PathUtils.NestedDirectoriesShape | src/main/java/org/example/cloudstorage/util/PathUtils.java:137-149 | every element of `getNestedDirectories(base, p)` starts with base and ends in '/' |
| PathUtils.NestedDirectoriesGrow | src/main/java/org/example/cloudstorage/util/PathUtils.java:137-149 | each element is a strict prefix of the next |
| PathUtils.SlashPrefixesMeaning | src/main/java/org/example/cloudstorage/util/PathUtils.java:137-149 | the reference ancestor list holds exactly the prefixes of a key ending in '/', strictly growing |
| PathUtils.ChainSplitAll | src/main/java/org/example/cloudstorage/util/PathUtils.java:142-147 | joining the split names one by one gives the '/'-terminated prefixes of s + "/" |
| PathUtils.NestedDirectoriesAreAncestors | src/main/java/org/example/cloudstorage/util/PathUtils.java:137-149 | with an empty base, the ancestors of a key without "//" are exactly its prefixes ending in '/', shortest first ("n1/n2/n3/" gives n1/, n1/n2/, n1/n2/n3/) |
| PathUtils.IsPathValid | src/main/java/org/example/cloudstorage/util/PathUtils.java:19-40 | null is IllegalArgument; otherwise valid exactly when at most 1024 characters, all in the pattern's class, and no "//" ("" and "/" included) |
| PathUtils.NoDoubleSlashInSlice | src/main/java/org/example/cloudstorage/util/PathUtils.java:35 | a substring of a path without "//" has none |
| PathUtils.ConstructBreadcrumb | src/main/java/org/example/cloudstorage/util/PathUtils.java:63-82 | fails with IllegalArgument exactly on a NUL or a start outside 0..name count; at the name count it is ("/", "/") |
| PathUtils.BreadcrumbParts | src/main/java/org/example/cloudstorage/util/PathUtils.java:71-78 | below the root: the parents joined and closed by '/' (or "/"), '\\' turned to '/'; the last name (closed by '/' for a directory), '+' turned to ' ' |
| PathUtils.BreadcrumbNameIsLastName | src/main/java/org/example/cloudstorage/util/PathUtils.java:74-77 | the name is the last name, closed by '/' for a directory |
| PathUtils.BreadcrumbPathIsParents | src/main/java/org/example/cloudstorage/util/PathUtils.java:73-76 | the path is the selected parents joined and closed by '/', or "/" when there are none |
| PathUtils.BreadcrumbSpellsSubpath | src/main/java/org/example/cloudstorage/util/PathUtils.java:71-78 | the path (with "/" as nothing) followed by the name spells the selected names joined by '/', closed by '/' for a directory |
| PathUtils.SpellsFromParts | src/main/java/org/example/cloudstorage/util/PathUtils.java:73-74 | a parent path built from all names but the last, followed by the last name, spells all the names |
| PathUtils.BreadcrumbNameShape | src/main/java/org/example/cloudstorage/util/PathUtils.java:46-47 | a directory's name ends in '/'; a file's name holds no '/' |
| PathUtils.BreadcrumbPathShape | src/main/java/org/example/cloudstorage/util/PathUtils.java:50-51 | the path is "/" or ends in '/' without starting with one |
| PathUtils.BreadcrumbOfRootedTwo | src/test/java/org/example/cloudstorage/util/PathUtilsTest.java:22 | ("/x/y", true, 0) gives ("x/", "y/") for any plain names |
| PathUtils.BreadcrumbOfRelativeTwo | src/test/java/org/example/cloudstorage/util/PathUtilsTest.java:21 | ("x/y", true, 0) gives ("x/", "y/") |
| PathUtils.BreadcrumbOfTrailingTwo | src/test/java/org/example/cloudstorage/util/PathUtilsTest.java:33 | ("x/y/", false, 1) gives ("/", "y") |
| PathUtils.BreadcrumbOfRootPath | src/main/java/org/example/cloudstorage/util/PathUtils.java:67-69 | ("/", _, 0) gives ("/", "/"), where the test rows at PathUtilsTest lines 54-55 expect an exception |
| PathUtils.BreadcrumbAtNameCount | src/main/java/org/example/cloudstorage/util/PathUtils.java:67-69 | ("/x/", _, 1) gives ("/", "/"), where the test row at PathUtilsTest line 56 expects an exception |
| PathUtils.BreadcrumbsAtNameCount | src/main/java/org/example/cloudstorage/util/PathUtils.java:67-69 | ("/x", _, 1), ("x/", _, 1), ("/x/y", _, 2), ("x/y", _, 2) and ("x/y/", _, 2) give ("/", "/"), where the test rows at PathUtilsTest lines 57-63 expect an exception |
| PathUtils.NamesOfRootedTwo | src/main/java/org/example/cloudstorage/util/PathUtils.java:65 | "/x/y" has the names x, y |
| PathUtils.NamesOfRelativeTwo | src/main/java/org/example/cloudstorage/util/PathUtils.java:65 | "x/y" has the names x, y |
| PathUtils.NamesOfTrailingTwo | src/main/java/org/example/cloudstorage/util/PathUtils.java:65 | "x/y/" has the names x, y |
| PathUtils.NamesOfThreeRooted | src/main/java/org/example/cloudstorage/util/PathUtils.java:118 | "/x/y/z" has the names x, y, z |
| PathUtils.NamesOfThreeRelative | src/main/java/org/example/cloudstorage/util/PathUtils.java:118 | "x/y/z" has the names x, y, z |
| Strings.LastIndexOf | src/main/java/org/example/cloudstorage/util/PathUtils.java:142 | `lastIndexOf`: -1 exactly when absent; otherwise the position of the character with none after it |
| Strings.IndexOf | src/main/java/org/example/cloudstorage/minio/impl/MinioRepository.java:52-53 | the first position of a character, -1 exactly when absent: where a listing's delimiter cuts a deeper key |
| Strings.ReplaceChar | src/main/java/org/example/cloudstorage/util/PathUtils.java:98 | `replace` of one character: every occurrence replaced, nothing else changed |
| Strings.JoinSplitAll | src/main/java/org/example/cloudstorage/util/PathUtils.java:142-147 | joining the pieces of a split by '/' gives the string back |
| Strings.LowerChar | src/main/java/org/example/cloudstorage/minio/impl/MinioSearchServiceImpl.java:40 | `toLowerCase` of one character leaves no Latin or Cyrillic capital and keeps every other character |
| Strings.LowerIdempotent | src/main/java/org/example/cloudstorage/minio/impl/MinioSearchServiceImpl.java:40 | a lower-cased name holds no capital, so lower-casing it again changes nothing |
| Strings.ContainsIffOccurs | src/main/java/org/example/cloudstorage/minio/impl/MinioSearchServiceImpl.java:40 | `contains` holds exactly when the text occurs at some position |
| Strings.StripLeadingIsSuffix | src/main/java/org/example/cloudstorage/util/PathUtils.java:98 | `strip` drops leading whitespace only: the rest is a suffix |
| Strings.StripTrailingIsPrefix | src/main/java/org/example/cloudstorage/util/PathUtils.java:98 | `strip` drops trailing whitespace only: the rest is a prefix |
| PathValidator.IsValid | src/main/java/org/example/cloudstorage/util/PathValidator.java:10-30 | an accepted key is non-empty, at most 1024 characters, from the pattern's class, not starting with '/' unless it is "/", and without "//" |
| PathValidator.IsValidExactly | src/main/java/org/example/cloudstorage/util/PathValidator.java:10-30 | the key is valid exactly when all five rules hold |
| PathValidator.IsValidRejectsSpaceAndPlus | src/main/java/org/example/cloudstorage/util/PathValidator.java:15-19 | a space, a '+' or a non-ASCII character makes a key invalid |
| PathValidator.ValidKeyIsValidPath | src/main/java/org/example/cloudstorage/util/PathValidator.java:10-30 | the constraint is stricter than `isPathValid`: every key it accepts, `isPathValid` accepts too |
| PathValidator.ValidKeyIsNormal | src/main/java/org/example/cloudstorage/util/PathValidator.java:10-30 | a valid key other than "/" is already normal |
| UserPaths.DecimalString | src/main/java/org/example/cloudstorage/util/MinioUserPathUtils.java:6 | `%d` of the user id: a non-empty string of digits, with a minus sign for a negative id |
| UserPaths.UserPrefixShape | src/main/java/org/example/cloudstorage/util/MinioUserPathUtils.java:6 | "user-<id>-files/" is one name closed by a single '/', without whitespace or '+' |
| UserPaths.UserPrefixIsNormal | src/main/java/org/example/cloudstorage/util/MinioUserPathUtils.java:9-10 | the prefix is its own normal form |
| UserPaths.EmptyPathIsPrefix | src/main/java/org/example/cloudstorage/util/MinioUserPathUtils.java:9 | normalising the prefix followed by the empty path gives the prefix, which line 9 returns without normalising |
| UserPaths.ConstructPathIsNormalizedPrefix | src/main/java/org/example/cloudstorage/util/MinioUserPathUtils.java:8-11 | the empty-path shortcut agrees with the general case: every key is `normalize(prefix + path)` |
| UserPaths.ConstructPathStaysInUserSpace | src/main/java/org/example/cloudstorage/util/MinioUserPathUtils.java:8-11 | every key starts with the user's prefix: no request path leads out of the user's key space |
| UserPaths.ConstructPathHasNoSpace | src/main/java/org/example/cloudstorage/util/MinioUserPathUtils.java:8-11 | no key holds a space |
| UserPaths.NormalizeAfterSpacePrefix | src/main/java/org/example/cloudstorage/util/MinioUserPathUtils.java:10 | normalising a one-name prefix followed by anything keeps the prefix |
| SortedKeys.Sorted | src/main/java/org/example/cloudstorage/minio/impl/MinioRepository.java:46-66 | the keys of a set in listing order: each key once, every key present, in order |
| SortedKeys.BelowTotal | src/main/java/org/example/cloudstorage/minio/impl/MinioRepository.java:46-66 | listing order is total |
| SortedKeys.BelowAntisymmetric | src/main/java/org/example/cloudstorage/minio/impl/MinioRepository.java:46-66 | listing order is antisymmetric |
| SortedKeys.BelowTransitive | src/main/java/org/example/cloudstorage/minio/impl/MinioRepository.java:46-66 | listing order is transitive |
| SortedKeys.Least | src/main/java/org/example/cloudstorage/minio/impl/MinioRepository.java:46-66 | the first key listed is below every other |
| Store.Lookup | src/main/java/org/example/cloudstorage/minio/impl/MinioRepository.java:30-44 | a stat succeeds exactly when the key exists and the store answers, with the key and its size; an error response is NotFound, a client failure StoreError |
| Store.Under | src/main/java/org/example/cloudstorage/minio/impl/MinioRepository.java:46-55 | the keys that start with the prefix, and only those |
| Store.CommonPrefix | src/main/java/org/example/cloudstorage/minio/impl/MinioRepository.java:46-55 | the common prefix of a deeper key: longer than the prefix, a prefix of the key, ending at its first '/' after the prefix |
| Store.Items | src/main/java/org/example/cloudstorage/minio/impl/MinioRepository.java:57-61 | one entry per name, directories of size 0, objects with their size |
| Store.ListedNames | src/main/java/org/example/cloudstorage/minio/impl/MinioRepository.java:46-55 | every name listed is a key, or (non-recursively) a common prefix |
| Store.Collect | src/main/java/org/example/cloudstorage/minio/impl/MinioRepository.java:57-61 | gathering the streamed entries one at a time yields them all, in order |
| Store.Bucket.constructor | src/main/java/org/example/cloudstorage/minio/impl/MinioRepository.java:24-28 | a gateway over a bucket and its failure oracle |
| Store.Bucket.GetObject | src/main/java/org/example/cloudstorage/minio/impl/MinioRepository.java:30-44 | `getObject` is the stat of the normalised key |
| Store.Bucket.GetListObjects | src/main/java/org/example/cloudstorage/minio/impl/MinioRepository.java:46-66 | `getListObjects` returns the listing of the normalised prefix, or StoreError, and changes nothing |
| Store.Bucket.DownloadObject | src/main/java/org/example/cloudstorage/minio/impl/MinioRepository.java:68-82 | `downloadObject` is the read of the normalised key |
| Store.Bucket.UploadObject | src/main/java/org/example/cloudstorage/minio/impl/MinioRepository.java:84-108 | `uploadObject` is the conditional put at `normalize(path + fileName)` |
| Store.Bucket.DeleteObjects | src/main/java/org/example/cloudstorage/minio/impl/MinioRepository.java:110-130 | `deleteObjects` sends the normalised keys in requests of at most 1000; a failing request is StoreError with the earlier requests applied; keys refused one by one stay while the call succeeds |
| Store.Bucket.CreateEmptyObject | src/main/java/org/example/cloudstorage/minio/impl/MinioRepository.java:132-147 | `createEmptyObject` is the unconditional zero-byte put |
| Store.Bucket.Copy | src/main/java/org/example/cloudstorage/minio/impl/MinioRepository.java:149-167 | `copy` is the copy between the normalised keys |
| StoreFacts.UploadNeverOverwrites | src/main/java/org/example/cloudstorage/minio/impl/MinioRepository.java:84-104 | a second upload of the same name is refused with AlreadyExists (or fails in the client) and the first object keeps its size |
| StoreFacts.UploadedKeyReadsBack | src/main/java/org/example/cloudstorage/minio/impl/MinioRepository.java:84-108 | the upload returns `normalize(path + fileName)`, absent before, now holding the size, and a stat of it finds it |
| StoreFacts.CreateIsIdempotent | src/main/java/org/example/cloudstorage/minio/impl/MinioRepository.java:132-147 | creating the same empty object twice is creating it once |
| StoreFacts.CreateOverwrites | src/main/java/org/example/cloudstorage/minio/impl/MinioRepository.java:132-147 | creation leaves an empty object at the key, overwriting, and changes nothing else |
| StoreFacts.CopyKeepsSource | src/main/java/org/example/cloudstorage/minio/impl/MinioRepository.java:149-167 | a copy keeps the source, gives the target the source's size, changes nothing else; a key copied onto itself is InvalidPath |
| StoreFacts.DeletedKeysAreGone | src/main/java/org/example/cloudstorage/minio/impl/MinioRepository.java:110-130 | after a successful batch delete exactly the keys the server did not refuse are gone: a stat of each is NotFound (or a client failure); refused keys and keys not asked for stay with their size |
| StoreFacts.RemoveBatchesShape | src/main/java/org/example/cloudstorage/minio/impl/MinioRepository.java:116-129 | the request loop only removes keys it was given that the server accepted; a failure is StoreError; a success removes every accepted key |
| StoreFacts.FailedDeleteIsPartial | src/main/java/org/example/cloudstorage/minio/impl/MinioRepository.java:116-129 | a failed batch delete is StoreError and removes only accepted keys it was given; with at most 1000 keys it removes nothing |
| StoreFacts.EarlierRequestsStayApplied | src/main/java/org/example/cloudstorage/minio/impl/MinioRepository.java:116-129 | when a later request of a batch delete fails, the accepted keys of the first 1000 are already gone |
| StoreFacts.RecursiveListingIsExact | src/main/java/org/example/cloudstorage/minio/impl/MinioRepository.java:46-66 | a recursive listing names every key below the prefix, once, in listing order, with its size, and nothing else |
| StoreFacts.RecursiveListingEntries | src/main/java/org/example/cloudstorage/minio/impl/MinioRepository.java:46-66 | every entry of a recursive listing is a key below the prefix, with its size |
| StoreFacts.RecursiveListingCovers | src/main/java/org/example/cloudstorage/minio/impl/MinioRepository.java:46-66 | every key below the prefix has its entry in a recursive listing |
| StoreFacts.PrefixShape | src/main/java/org/example/cloudstorage/minio/impl/MinioRepository.java:52-53 | a common prefix starts with the prefix, ends in '/' and has a key below it |
| StoreFacts.DelimitedNames | src/main/java/org/example/cloudstorage/minio/impl/MinioRepository.java:52-53 | the names of a non-recursive listing are exactly the direct keys and the common prefixes, each once, in order |
| StoreFacts.DelimitedListingEntries | src/main/java/org/example/cloudstorage/minio/impl/MinioRepository.java:52-53 | each entry is a direct key with its size, or a common prefix of deeper keys as a directory of size 0 |
| StoreFacts.DelimitedListingCovers | src/main/java/org/example/cloudstorage/minio/impl/MinioRepository.java:52-53 | every direct key is listed as itself and every deeper key through its common prefix, no name twice |
| StoreFacts.DirectKeyListed | src/main/java/org/example/cloudstorage/minio/impl/MinioRepository.java:52-53 | a key directly below the prefix is listed as an object with its size |
| StoreFacts.DeeperKeyListed | src/main/java/org/example/cloudstorage/minio/impl/MinioRepository.java:52-53 | a deeper key is listed through its common prefix |
| StoreFacts.PrefixesMissDirect | src/main/java/org/example/cloudstorage/minio/impl/MinioRepository.java:52-53 | a direct key is never a common prefix |
| StoreFacts.ListingEmptyIffNoKey | src/main/java/org/example/cloudstorage/minio/impl/MinioRepository.java:46-66 | a listing, recursive or not, is empty exactly when no key starts with the prefix |
| Steps.WithPostfix | src/main/java/org/example/cloudstorage/minio/impl/MinioManipulationServiceImpl.java:69-71 | each directory followed by the postfix |
| Steps.CreateEachAppend | src/main/java/org/example/cloudstorage/minio/impl/MinioManipulationServiceImpl.java:41-45 | creating the markers of a + b is creating a, then (unless that failed) b |
| Steps.DeleteEachAppend | src/main/java/org/example/cloudstorage/minio/impl/MinioManipulationServiceImpl.java:51-53 | deleting a + b is deleting a, then (unless that failed) b |
| Steps.KeySetAppend | src/main/java/org/example/cloudstorage/minio/impl/MinioRepository.java:111-114 | the normalised keys of a concatenation are the keys of its parts |
| Steps.DeleteOne | src/main/java/org/example/cloudstorage/minio/impl/MinioRepository.java:110-130 | a delete of one path is StoreError with nothing changed when its request fails; otherwise it succeeds, and the key is gone unless the server refused it |
| Steps.DeleteEachStep | src/main/java/org/example/cloudstorage/minio/impl/MinioManipulationServiceImpl.java:51-53 | one more delete removes the next normalised key unless the server refuses it, or fails and changes nothing |
| Steps.DeleteEachRemoves | src/main/java/org/example/cloudstorage/minio/impl/MinioManipulationServiceImpl.java:51-53 | deletes with no failed request remove exactly the normalised keys the server did not refuse |
| Steps.DeleteEachRemovesAll | src/main/java/org/example/cloudstorage/minio/impl/MinioManipulationServiceImpl.java:51-53 | with no refused key, deletes with no failed request remove exactly the normalised keys |
| Steps.DeleteEachOnlyRemoves | src/main/java/org/example/cloudstorage/minio/impl/MinioManipulationServiceImpl.java:51-53 | a run of deletes, failing or not, only removes keys |
| Steps.CreateEachStep | src/main/java/org/example/cloudstorage/minio/impl/MinioManipulationServiceImpl.java:42-44 | one more creation empties the next normalised key, or fails and changes nothing |
| Steps.CreateEachOnlyAdds | src/main/java/org/example/cloudstorage/minio/impl/MinioManipulationServiceImpl.java:42-44 | creating markers keeps every key, with its size or emptied |
| Steps.CreatedIsPresent | src/main/java/org/example/cloudstorage/minio/impl/MinioManipulationServiceImpl.java:42-44 | when no creation fails, every created key is present and empty |
| Steps.DeleteEachSucceeds | src/main/java/org/example/cloudstorage/minio/impl/MinioManipulationServiceImpl.java:35-37 | with no failing delete request, a run of deletes succeeds |
| Steps.KeySetOfNormal | src/main/java/org/example/cloudstorage/minio/impl/MinioRepository.java:111-112 | the normalised keys of paths already normal are the paths |
| Metadata.GetResource | src/main/java/org/example/cloudstorage/minio/impl/MinioMetadataServiceImpl.java:21-31 | a directory is stat'ed at its marker and reported under its own path; a file under its normalised key; NotFound on an error response, StoreError on a client failure |
| Metadata.GetStatedResource | src/main/java/org/example/cloudstorage/minio/impl/MinioResourceMetadataServiceImpl.java:21-31 | `get`: like `getResource`, but the stat'ed key is reported, so a directory comes back as its marker |
| Metadata.StatExists | src/main/java/org/example/cloudstorage/minio/impl/MinioManipulationServiceImpl.java:120-130 | present exactly when the stat succeeds; absent on an error response or a missing key; a client failure propagates |
| Metadata.Visible | src/main/java/org/example/cloudstorage/minio/impl/MinioMetadataServiceImpl.java:38-40 | the entries whose names do not end in the postfix, as resources |
| Metadata.ListFiles | src/main/java/org/example/cloudstorage/minio/impl/MinioMetadataServiceImpl.java:34-42 | InvalidPath exactly for a non-directory path; a success went through both listings |
| Metadata.ListResources | src/main/java/org/example/cloudstorage/minio/impl/MinioResourceMetadataServiceImpl.java:34-41 | `list`: a success implies the stat-based existence check found the path; a missing key is NotFound; file paths are not refused |
| MetadataFacts.VisibleAppend | src/main/java/org/example/cloudstorage/minio/impl/MinioMetadataServiceImpl.java:38-41 | hiding markers keeps listing order |
| MetadataFacts.VisibleKeeps | src/main/java/org/example/cloudstorage/minio/impl/MinioMetadataServiceImpl.java:39 | every entry not ending in the postfix is kept |
| MetadataFacts.VisibleOnly | src/main/java/org/example/cloudstorage/minio/impl/MinioMetadataServiceImpl.java:39-40 | every resource comes from an entry not ending in the postfix |
| MetadataFacts.ListFilesNotFoundIffEmpty | src/main/java/org/example/cloudstorage/minio/impl/MinioMetadataServiceImpl.java:36-49 | a directory is NotFound exactly when no key starts with its normalised marker path |
| MetadataFacts.ListFilesHidesExactlyMarkers | src/main/java/org/example/cloudstorage/minio/impl/MinioMetadataServiceImpl.java:37-41 | `listFiles` reports exactly the listing's entries whose names do not end in the postfix |
| MetadataFacts.GetResourceTellsKindsApart | src/main/java/org/example/cloudstorage/minio/impl/MinioMetadataServiceImpl.java:23-25 | a file path is NotFound when only the directory's marker exists, and a directory path when only the file exists |
| Manipulation.Puts | src/main/java/org/example/cloudstorage/minio/impl/MinioManipulationServiceImpl.java:29-32 | each file's key is `normalize(path + name)`, or none for a missing or empty name |
| Manipulation.ObjectNames | src/main/java/org/example/cloudstorage/minio/impl/MinioManipulationServiceImpl.java:51-52 | the names of listed items, in order |
| Manipulation.DeleteResource | src/main/java/org/example/cloudstorage/minio/impl/MinioManipulationServiceImpl.java:49-57 | every failure of `deleteResource` is PartialDeletion |
| Manipulation.Relocate | src/main/java/org/example/cloudstorage/minio/impl/MinioManipulationServiceImpl.java:92 | `to + name.substring(from.length())`, or OutOfBounds when the name is shorter than from |
| Manipulation.Plans | src/main/java/org/example/cloudstorage/minio/impl/MinioManipulationServiceImpl.java:91-98 | one copy plan per listed key, in listing order |
| Manipulation.PutAll | src/main/java/org/example/cloudstorage/minio/impl/MinioManipulationServiceImpl.java:29-33 | the put loop writes at most one key per file |
| Manipulation.CopyAll | src/main/java/org/example/cloudstorage/minio/impl/MinioManipulationServiceImpl.java:91-99 | the copy loop records one source and one target per copy, at most one per plan |
| ManipulationServiceImpl.ManipulationService.constructor | src/main/java/org/example/cloudstorage/minio/impl/MinioManipulationServiceImpl.java:20-23 | a service over a bucket and a postfix |
| ManipulationServiceImpl.ManipulationService.CreateEmptyDirectory | src/main/java/org/example/cloudstorage/minio/impl/MinioManipulationServiceImpl.java:68-71 | writes the empty marker `path + postfix` |
| ManipulationServiceImpl.ManipulationService.CreateAncestors | src/main/java/org/example/cloudstorage/minio/impl/MinioManipulationServiceImpl.java:42-44 | writes the marker of every directory `getNestedDirectories(base, key)` lists, in order, stopping at the first failure |
| ManipulationServiceImpl.ManipulationService.CreateMarkers | src/main/java/org/example/cloudstorage/minio/impl/MinioManipulationServiceImpl.java:41-45 | for each written key in turn, the markers of its nested directories |
| ManipulationServiceImpl.ManipulationService.UploadResource | src/main/java/org/example/cloudstorage/minio/impl/MinioManipulationServiceImpl.java:25-46 | puts each file in turn; on a failure deletes the keys written and reports the failure (or the rollback's); on success writes the markers |
| ManipulationServiceImpl.ManipulationService.DeleteResource | src/main/java/org/example/cloudstorage/minio/impl/MinioManipulationServiceImpl.java:48-57 | deletes every key listed below the path; any failure is PartialDeletion |
| ManipulationServiceImpl.ManipulationService.ExistsByPath | src/main/java/org/example/cloudstorage/minio/impl/MinioManipulationServiceImpl.java:120-130 | the stat-based existence check |
| ManipulationServiceImpl.ManipulationService.MoveFile | src/main/java/org/example/cloudstorage/minio/impl/MinioManipulationServiceImpl.java:73-83 | refused over an existing target; markers with the postfix twice; then stat, copy and delete |
| ManipulationServiceImpl.ManipulationService.TransferFile | src/main/java/org/example/cloudstorage/minio/impl/MinioManipulationServiceImpl.java:79-82 | stat the source, copy the stat'ed key, delete it, report (to, false, size) |
| ManipulationServiceImpl.ManipulationService.CopyItem | src/main/java/org/example/cloudstorage/minio/impl/MinioManipulationServiceImpl.java:92-96 | relocate one listed key, check its destination, copy |
| ManipulationServiceImpl.ManipulationService.CopyListed | src/main/java/org/example/cloudstorage/minio/impl/MinioManipulationServiceImpl.java:86-99 | the copy loop, returning the keys copied from and to |
| ManipulationServiceImpl.ManipulationService.MoveDirectory | src/main/java/org/example/cloudstorage/minio/impl/MinioManipulationServiceImpl.java:85-118 | copy all; on failure delete the copies; then delete the sources and write the markers; report (to, true, 0) |
| ManipulationServiceImpl.ManipulationService.MoveResource | src/main/java/org/example/cloudstorage/minio/impl/MinioManipulationServiceImpl.java:59-66 | a directory move exactly when from ends in '/' |
| ManipulationServiceImpl.DeleteAll | src/main/java/org/example/cloudstorage/minio/impl/MinioManipulationServiceImpl.java:35-37 | `deleteObject` of each path in turn, stopping at the first failure |
| ManipulationServiceImpl.CreateDirectories | src/main/java/org/example/cloudstorage/minio/impl/MinioManipulationServiceImpl.java:42-44 | `createEmptyDirectory` of each directory in turn |
| ManipulationServiceImpl.MarkersRunIsCreateEach | src/main/java/org/example/cloudstorage/minio/impl/MinioManipulationServiceImpl.java:41-45 | the marker loop, key by key, writes exactly the markers of all the keys, in order |
| ManipulationServiceImpl.MarkersRunStep | src/main/java/org/example/cloudstorage/minio/impl/MinioManipulationServiceImpl.java:41-45 | one more key: its nested directories' markers |
| ManipulationServiceImpl.MarkersRunKeepsFailure | src/main/java/org/example/cloudstorage/minio/impl/MinioManipulationServiceImpl.java:41-45 | a failure ends the marker loop |
| ManipulationServiceImpl.PutAllStep | src/main/java/org/example/cloudstorage/minio/impl/MinioManipulationServiceImpl.java:29-33 | one more file: InvalidFile for a missing name; otherwise the conditional put, recording the key it reports |
| ManipulationServiceImpl.PutAllKeepsFailure | src/main/java/org/example/cloudstorage/minio/impl/MinioManipulationServiceImpl.java:28-34 | a failure ends the put loop |
| ManipulationServiceImpl.CopyAllKeepsFailure | src/main/java/org/example/cloudstorage/minio/impl/MinioManipulationServiceImpl.java:90-100 | a failure ends the copy loop |
| ManipulationServiceImpl.CreateEachPrefixFailure | src/main/java/org/example/cloudstorage/minio/impl/MinioManipulationServiceImpl.java:42-44 | a failed creation ends the run |
| ManipulationServiceImpl.DeleteEachPrefixFailure | src/main/java/org/example/cloudstorage/minio/impl/MinioManipulationServiceImpl.java:35-37 | a failed delete ends the run |
| ManipulationServiceImpl.PlanOutcome | src/main/java/org/example/cloudstorage/minio/impl/MinioManipulationServiceImpl.java:92-96 | a key that cannot be relocated fails with nothing changed |
| ManipulationServiceImpl.CopyAllSnoc | src/main/java/org/example/cloudstorage/minio/impl/MinioManipulationServiceImpl.java:91-99 | the copy loop over one more key is the loop so far, then that key's check and copy |
| ManipulationServiceImpl.CopyLoopStep | src/main/java/org/example/cloudstorage/minio/impl/MinioManipulationServiceImpl.java:91-99 | a pass that succeeds records the key and `to + key.substring(from.length())`; a failing pass is where the loop ends |
| ManipulationServiceImpl.WithPostfixTwice | src/main/java/org/example/cloudstorage/minio/impl/MinioManipulationServiceImpl.java:77 | adding the postfix at line 77 and again at line 70 is adding it doubled ("dir/$$") |
| UploadFacts.PutAllShape | src/main/java/org/example/cloudstorage/minio/impl/MinioManipulationServiceImpl.java:29-33 | the put loop only adds absent keys and keeps every key with its size |
| UploadFacts.PutAllCount | src/main/java/org/example/cloudstorage/minio/impl/MinioManipulationServiceImpl.java:29-33 | the loop succeeds exactly when it wrote every file |
| UploadFacts.PutAllWritten | src/main/java/org/example/cloudstorage/minio/impl/MinioManipulationServiceImpl.java:32 | the i-th written key is the i-th file's key, holding its size |
| UploadFacts.PutEachShape | src/main/java/org/example/cloudstorage/minio/impl/MinioManipulationServiceImpl.java:29-33 | the upload loop only adds absent keys and keeps every key with its size |
| UploadFacts.PutEachCount | src/main/java/org/example/cloudstorage/minio/impl/MinioManipulationServiceImpl.java:29-33 | the upload loop succeeds exactly when it wrote every file |
| UploadFacts.PutEachWritten | src/main/java/org/example/cloudstorage/minio/impl/MinioManipulationServiceImpl.java:32 | the i-th written key is `normalize(path + name)` of the i-th file, holding its size |
| UploadFacts.UploadIsAllOrNothing | src/main/java/org/example/cloudstorage/minio/impl/MinioManipulationServiceImpl.java:27-39 | a failed upload reports the failure and keeps every key with its size; only written keys whose delete the server refused are left over, so with no refusal the bucket is exactly as before |
| UploadFacts.UploadOkParts | src/main/java/org/example/cloudstorage/minio/impl/MinioManipulationServiceImpl.java:28-45 | a successful upload wrote every file, then every marker |
| UploadFacts.UploadKeepsFiles | src/main/java/org/example/cloudstorage/minio/impl/MinioManipulationServiceImpl.java:29-33 | after a successful upload every file is at its normalised key, which was absent before |
| UploadFacts.UploadKeepsExisting | src/main/java/org/example/cloudstorage/minio/impl/MinioManipulationServiceImpl.java:41-45 | a successful upload keeps every existing key, with its size or emptied by a marker |
| UploadFacts.MarkersOfHas | src/main/java/org/example/cloudstorage/minio/impl/MinioManipulationServiceImpl.java:41-44 | each nested directory of each written key, with the postfix, is among the markers written |
| UploadFacts.MarkersOfKeepsFront | src/main/java/org/example/cloudstorage/minio/impl/MinioManipulationServiceImpl.java:41-44 | the markers of the earlier keys begin the markers of all of them |
| UploadFacts.MarkersOfHasLast | src/main/java/org/example/cloudstorage/minio/impl/MinioManipulationServiceImpl.java:42-44 | the markers of the last key close the run |
| UploadFacts.UploadWritesMarkers | src/main/java/org/example/cloudstorage/minio/impl/MinioManipulationServiceImpl.java:41-45 | after a successful upload the marker of every directory `getNestedDirectories(path, key)` lists is present and empty |
| DeleteFacts.ListingNamesBelow | src/main/java/org/example/cloudstorage/minio/impl/MinioManipulationServiceImpl.java:51 | every name a recursive listing reports is a normal key below the path |
| DeleteFacts.ListingNamesCover | src/main/java/org/example/cloudstorage/minio/impl/MinioManipulationServiceImpl.java:51 | every key below the path is among the listed names |
| DeleteFacts.ListedKeys | src/main/java/org/example/cloudstorage/minio/impl/MinioManipulationServiceImpl.java:51-52 | the normalised listed names are exactly the keys below the path |
| DeleteFacts.DeleteEachKeepsOthers | src/main/java/org/example/cloudstorage/minio/impl/MinioManipulationServiceImpl.java:51-52 | deleting keeps every key outside the deleted ones |
| DeleteFacts.DeleteListingRemovesTree | src/main/java/org/example/cloudstorage/minio/impl/MinioManipulationServiceImpl.java:51-52 | deleting the listing with no failed request removes exactly the keys below the path that the server did not refuse |
| DeleteFacts.DeleteRemovesTree | src/main/java/org/example/cloudstorage/minio/impl/MinioManipulationServiceImpl.java:49-57 | a successful `deleteResource` removes exactly the keys below the normalised path that the server did not refuse (all of them when it refuses none), so "file.txt" also removes "file.txt.bak" |
| DeleteFacts.DeleteStaysInTree | src/main/java/org/example/cloudstorage/minio/impl/MinioManipulationServiceImpl.java:49-57 | even a partial deletion only removes keys below the path |
| DeleteFacts.CreatedDirectoryIsVisible | src/main/java/org/example/cloudstorage/minio/impl/MinioManipulationServiceImpl.java:69-71 | a created directory is found by `getResource` as an empty directory |
| MoveFacts.MoveFileRefusesExisting | src/main/java/org/example/cloudstorage/minio/impl/MinioManipulationServiceImpl.java:74-75 | a file move onto an existing path is AlreadyExists and changes nothing |
| MoveFacts.TransferMoves | src/main/java/org/example/cloudstorage/minio/impl/MinioManipulationServiceImpl.java:79-82 | the target holds the source's size, the result is (to, false, size), other keys stay; the source key is gone exactly when the server did not refuse its delete |
| MoveFacts.MoveFileMoves | src/main/java/org/example/cloudstorage/minio/impl/MinioManipulationServiceImpl.java:73-83 | a file move that goes through: the target holds the reported size, other keys stay or become markers; the source key is gone exactly when the server did not refuse its delete |
| MoveFacts.MoveFileTargetWasAbsent | src/main/java/org/example/cloudstorage/minio/impl/MinioManipulationServiceImpl.java:74-75 | a file move to a file path wrote a key that did not exist |
| MoveFacts.MoveFileWritesMarkers | src/main/java/org/example/cloudstorage/minio/impl/MinioManipulationServiceImpl.java:76-78 | the markers of the target's ancestors are written |
| MoveFacts.RelocatedIsFile | src/main/java/org/example/cloudstorage/minio/impl/MinioManipulationServiceImpl.java:92 | the destination of a movable key is a file path |
| MoveFacts.PlansOfMovable | src/main/java/org/example/cloudstorage/minio/impl/MinioManipulationServiceImpl.java:92-96 | the plan of a movable key checks and copies onto its relocated path |
| MoveFacts.CopyAllStep | src/main/java/org/example/cloudstorage/minio/impl/MinioManipulationServiceImpl.java:93-98 | a copy that goes through had an absent target and a present source, and the target takes the source's size; otherwise nothing changes |
| MoveFacts.CopyAllCount | src/main/java/org/example/cloudstorage/minio/impl/MinioManipulationServiceImpl.java:90-99 | the copy loop went through every key exactly when it succeeds |
| MoveFacts.CopyAllPairs | src/main/java/org/example/cloudstorage/minio/impl/MinioManipulationServiceImpl.java:97-98 | the i-th recorded pair is the i-th listed key and its destination |
| MoveFacts.CopyAllKeeps | src/main/java/org/example/cloudstorage/minio/impl/MinioManipulationServiceImpl.java:90-99 | the copy loop keeps every key with its size |
| MoveFacts.CopyAllAddsTargets | src/main/java/org/example/cloudstorage/minio/impl/MinioManipulationServiceImpl.java:90-99 | the copy loop only adds target keys of the copies it made |
| MoveFacts.CopyAllTargetsNew | src/main/java/org/example/cloudstorage/minio/impl/MinioManipulationServiceImpl.java:93-96 | every target written was absent before |
| MoveFacts.CopyAllValue | src/main/java/org/example/cloudstorage/minio/impl/MinioManipulationServiceImpl.java:96 | every target holds its source's size |
| MoveFacts.RollbackRestores | src/main/java/org/example/cloudstorage/minio/impl/MinioManipulationServiceImpl.java:100-104 | deleting the recorded copies succeeds and keeps every original key with its size; only copies the server refused to delete are left over, none when it refuses none |
| MoveFacts.MoveDirectoryRollsBack | src/main/java/org/example/cloudstorage/minio/impl/MinioManipulationServiceImpl.java:88-105 | a directory move whose copy loop fails is an error and keeps every key with its size; only copies the server refused to delete are left over, so with no refusal the bucket is as it was |
| MoveFacts.CopiedSources | src/main/java/org/example/cloudstorage/minio/impl/MinioManipulationServiceImpl.java:97 | a loop that went through recorded every source |
| MoveFacts.CopiedTargets | src/main/java/org/example/cloudstorage/minio/impl/MinioManipulationServiceImpl.java:93-98 | a loop that went through wrote every target, new, with its source's size |
| MoveFacts.DeleteSourcesKeepsTargets | src/main/java/org/example/cloudstorage/minio/impl/MinioManipulationServiceImpl.java:107-109 | deleting the sources keeps every target: destinations are disjoint from deleted sources; each source is gone exactly when the server did not refuse its delete |
| MoveFacts.DeleteSourcesKeepsOthers | src/main/java/org/example/cloudstorage/minio/impl/MinioManipulationServiceImpl.java:107-109 | deleting the sources keeps every key that was no source |
| MoveFacts.ItemPlans | src/main/java/org/example/cloudstorage/minio/impl/MinioManipulationServiceImpl.java:91-96 | the plans of listed keys copy each key to its normalised relocated path |
| MoveFacts.MoveListedMovesData | src/main/java/org/example/cloudstorage/minio/impl/MinioManipulationServiceImpl.java:90-117 | every key below the source is at its relocated key, new, with its size (or a marker) |
| MoveFacts.MoveListedClearsSource | src/main/java/org/example/cloudstorage/minio/impl/MinioManipulationServiceImpl.java:107-109 | no key below the source whose delete the server accepted holds data any more |
| MoveFacts.MoveListedKeepsOthers | src/main/java/org/example/cloudstorage/minio/impl/MinioManipulationServiceImpl.java:90-117 | keys outside the source stay, with their size or as markers |
| MoveFacts.MoveDirectoryMovesData | src/main/java/org/example/cloudstorage/minio/impl/MinioManipulationServiceImpl.java:85-118 | each `from + s` lands at `to + s`, new, with its size (or emptied by a later marker) |
| MoveFacts.MoveDirectoryClearsSource | src/main/java/org/example/cloudstorage/minio/impl/MinioManipulationServiceImpl.java:85-118 | after the move no key below the source whose delete the server accepted holds data, and every other key stays |
| Search.Classify | src/main/java/org/example/cloudstorage/minio/impl/MinioSearchServiceImpl.java:28-45 | the searched directory's own marker contributes nothing; failures of the name lookup are IllegalArgument |
| Search.Classified | src/main/java/org/example/cloudstorage/minio/impl/MinioSearchServiceImpl.java:27-46 | one classification per listed item, in order |
| Search.Gather | src/main/java/org/example/cloudstorage/minio/impl/MinioSearchServiceImpl.java:26-47 | the hits are at most one per item |
| Search.Scan | src/main/java/org/example/cloudstorage/minio/impl/MinioSearchServiceImpl.java:27-46 | the loop over the listed items computes their hits, failing at the first failing item |
| Search.SearchService.constructor | src/main/java/org/example/cloudstorage/minio/impl/MinioSearchServiceImpl.java:17-20 | a search service over a bucket and a postfix |
| Search.SearchService.SearchResources | src/main/java/org/example/cloudstorage/minio/impl/MinioSearchServiceImpl.java:24-48 | `searchResources`: the recursive listing of the path, searched |
| Search.GatherStep | src/main/java/org/example/cloudstorage/minio/impl/MinioSearchServiceImpl.java:27-46 | one more item: a failure, nothing, or one more hit at the end |
| Search.GatherKeepsFailure | src/main/java/org/example/cloudstorage/minio/impl/MinioSearchServiceImpl.java:27-46 | a failure ends the search |
| Search.GatherOkAll | src/main/java/org/example/cloudstorage/minio/impl/MinioSearchServiceImpl.java:27-46 | a successful search classified every item without failure |
| Search.GatherErrFrom | src/main/java/org/example/cloudstorage/minio/impl/MinioSearchServiceImpl.java:27-46 | a failed search failed at some item |
| Search.GatherHitFrom | src/main/java/org/example/cloudstorage/minio/impl/MinioSearchServiceImpl.java:41-44 | each hit comes from some item |
| Search.GatherKeepsHit | src/main/java/org/example/cloudstorage/minio/impl/MinioSearchServiceImpl.java:40-45 | every item that is a hit is among the results |
| Search.SearchOkItemOk | src/main/java/org/example/cloudstorage/minio/impl/MinioSearchServiceImpl.java:27-46 | a search that succeeds classified every listed item without failure |
| Search.SearchErrFromItem | src/main/java/org/example/cloudstorage/minio/impl/MinioSearchServiceImpl.java:33-38 | a search that fails fails with the error of some listed item |
| Search.SearchHitHasItem | src/main/java/org/example/cloudstorage/minio/impl/MinioSearchServiceImpl.java:41-44 | every hit is what some listed item classifies as |
| Search.SearchKeepsHit | src/main/java/org/example/cloudstorage/minio/impl/MinioSearchServiceImpl.java:40-45 | every item that classifies as a hit is among the results |
| Search.ClassifyHitShape | src/main/java/org/example/cloudstorage/minio/impl/MinioSearchServiceImpl.java:41-44 | a hit keeps the size; a directory hit is the marker key with the postfix trimmed, never the searched directory; a file hit is the key |
| Search.ClassifyFile | src/main/java/org/example/cloudstorage/minio/impl/MinioSearchServiceImpl.java:37-40 | a file key d/b is a hit exactly when b contains the query, ignoring case |
| Search.ClassifyMarker | src/main/java/org/example/cloudstorage/minio/impl/MinioSearchServiceImpl.java:33-43 | the marker d/ + postfix is a hit as directory d/ exactly when d's last name contains the query, ignoring case |
| Search.ClassifyEndingInPostfix | src/main/java/org/example/cloudstorage/minio/impl/MinioSearchServiceImpl.java:33-43 | a key ending in the postfix is matched by its second name from the end and reported with the postfix trimmed |
| Search.ClassifyRootMarkerFails | src/main/java/org/example/cloudstorage/minio/impl/MinioSearchServiceImpl.java:33-34 | a marker with no directory name before it, other than the skipped one, makes the search fail with IllegalArgument |
| Download.EntryName | src/main/java/org/example/cloudstorage/minio/impl/MinioDownloadServiceImpl.java:48-50 | the key without the root prefix and without a trailing postfix; OutOfBounds when the root is longer than what remains |
| Download.EntriesFor | src/main/java/org/example/cloudstorage/minio/impl/MinioDownloadServiceImpl.java:44-52 | one entry attempt per listed key, in listing order |
| Download.EntryNames | src/main/java/org/example/cloudstorage/minio/impl/MinioDownloadServiceImpl.java:52 | the names already written hold every entry's name |
| Download.Pack | src/main/java/org/example/cloudstorage/minio/impl/MinioDownloadServiceImpl.java:43-61 | the archive has at most one entry per listed key |
| Download.DownloadResource | src/main/java/org/example/cloudstorage/minio/impl/MinioDownloadServiceImpl.java:30-35 | a path ending in '/' gives a zip and never fails; any other path is the object itself or the download's error |
| Download.EntryNameRoundTrip | src/main/java/org/example/cloudstorage/minio/impl/MinioDownloadServiceImpl.java:48-50 | root + entry name (+ the postfix for a marker) gives the key back |
| Download.EntryNameOfLayout | src/main/java/org/example/cloudstorage/minio/impl/MinioDownloadServiceImpl.java:48-50 | a key built as root + name (+ postfix) yields that name ("d/sub/$" gives "sub/") |
| Download.RootMarkerIsEmptyEntry | src/main/java/org/example/cloudstorage/minio/impl/MinioDownloadServiceImpl.java:48-50 | the root's own marker yields the entry "" |
| Download.PackEntry | src/main/java/org/example/cloudstorage/minio/impl/MinioDownloadServiceImpl.java:44-59 | every entry is the entry of the listed key at the same position |
| Download.PackStops | src/main/java/org/example/cloudstorage/minio/impl/MinioDownloadServiceImpl.java:44-64 | the archive is complete exactly when every key got its entry; an unfinished one stopped at a failure or a repeated name |
| Download.PackNamesDistinct | src/main/java/org/example/cloudstorage/minio/impl/MinioDownloadServiceImpl.java:52 | no two entries share a name |
| Download.PackedEntryIsKey | src/main/java/org/example/cloudstorage/minio/impl/MinioDownloadServiceImpl.java:44-52 | every entry names a key below the root |
| Download.ZipEntryIsKeyBelowRoot | src/main/java/org/example/cloudstorage/minio/impl/MinioDownloadServiceImpl.java:38-52 | every entry of a directory's archive names a key below the directory |
| Legacy.LegacyRepository.constructor | src/main/java/org/example/cloudstorage/minio/HierarchicalMinioRepository.java:26-34 | the repository over a bucket and its postfix |
| Legacy.LegacyRepository.GetResource | src/main/java/org/example/cloudstorage/minio/HierarchicalMinioRepository.java:36-46 | reports the stat'ed key, so a directory comes back as its marker key |
| Legacy.LegacyRepository.ExistsByPath | src/main/java/org/example/cloudstorage/minio/HierarchicalMinioRepository.java:173-183 | the stat-based existence check |
| Legacy.LegacyRepository.ListResources | src/main/java/org/example/cloudstorage/minio/HierarchicalMinioRepository.java:48-55 | NotFound unless the existence check succeeds; markers hidden |
| Legacy.LegacyRepository.CreateEmptyDirectory | src/main/java/org/example/cloudstorage/minio/HierarchicalMinioRepository.java:82-84 | writes the empty marker of the path |
| Legacy.LegacyRepository.CreateMissingDirectories | src/main/java/org/example/cloudstorage/minio/HierarchicalMinioRepository.java:185-195 | the marker of each directory of the name, below the path, shortest first; nothing for a name without '/' |
| Legacy.LegacyRepository.Upload | src/main/java/org/example/cloudstorage/minio/HierarchicalMinioRepository.java:57-63 | per file: InvalidPath without a name, the markers, then the put; no rollback |
| Legacy.LegacyRepository.Delete | src/main/java/org/example/cloudstorage/minio/HierarchicalMinioRepository.java:72-80 | deletes every key listed below the path; any failure is PartialDeletion |
| Legacy.LegacyRepository.Search | src/main/java/org/example/cloudstorage/minio/HierarchicalMinioRepository.java:86-110 | the same search as the search service |
| Legacy.LegacyRepository.MoveItem | src/main/java/org/example/cloudstorage/minio/HierarchicalMinioRepository.java:125-129 | one listed key: check its destination, copy, delete |
| Legacy.LegacyRepository.MoveDirectory | src/main/java/org/example/cloudstorage/minio/HierarchicalMinioRepository.java:122-131 | the directory branch: list, then move key by key |
| Legacy.LegacyRepository.MoveItems | src/main/java/org/example/cloudstorage/minio/HierarchicalMinioRepository.java:124-130 | the per-key loop, stopping at the first failure |
| Legacy.LegacyRepository.MoveFile | src/main/java/org/example/cloudstorage/minio/HierarchicalMinioRepository.java:113-120 | refused over an existing target; markers with the postfix once; then stat, copy, delete |
| Legacy.LegacyRepository.Move | src/main/java/org/example/cloudstorage/minio/HierarchicalMinioRepository.java:112-133 | by the kind of from |
| Legacy.UploadOneOnlyAdds | src/main/java/org/example/cloudstorage/minio/HierarchicalMinioRepository.java:58-62 | one file's upload keeps every key, with its size or as a marker |
| Legacy.PutKeyKeeps | src/main/java/org/example/cloudstorage/minio/HierarchicalMinioRepository.java:61 | a put, failing or not, keeps every key with its size |
| Legacy.UploadOnlyAdds | src/main/java/org/example/cloudstorage/minio/HierarchicalMinioRepository.java:57-63 | an upload, failing or not, removes nothing |
| Legacy.UploadGrows | src/main/java/org/example/cloudstorage/minio/HierarchicalMinioRepository.java:57-63 | what the first files left is kept by the rest |
| Legacy.UploadOneStores | src/main/java/org/example/cloudstorage/minio/HierarchicalMinioRepository.java:59-61 | a file that went in is stored at its key, absent before |
| Legacy.UploadKeepsEarlierFiles | src/main/java/org/example/cloudstorage/minio/HierarchicalMinioRepository.java:57-63 | no rollback: once a file went in, it stays, however the upload ends |
| Legacy.UploadKeepsFailure | src/main/java/org/example/cloudstorage/minio/HierarchicalMinioRepository.java:57-63 | a failure ends the upload |
| Legacy.MoveKeyCount | src/main/java/org/example/cloudstorage/minio/HierarchicalMinioRepository.java:128-129 | moving a key to an absent target keeps the number of keys |
| Legacy.MoveStepMoves | src/main/java/org/example/cloudstorage/minio/HierarchicalMinioRepository.java:125-129 | one key moved: present before, destination absent, now at the destination in its place (the source stays only when the server refused its delete) |
| Legacy.MoveStepFails | src/main/java/org/example/cloudstorage/minio/HierarchicalMinioRepository.java:125-129 | a failing key leaves nothing changed, or only the copy when the delete failed |
| Legacy.MoveEachKeyCount | src/main/java/org/example/cloudstorage/minio/HierarchicalMinioRepository.java:124-130 | no key is lost and each listed key adds at most one; with no refused delete, a move that goes through keeps the number of keys and a failing one adds at most one |
| Legacy.MoveStepKeyCount | src/main/java/org/example/cloudstorage/minio/HierarchicalMinioRepository.java:125-129 | one key of a move adds at most one key, and none when it goes through and its delete is not refused |
| Legacy.MoveDirectoryKeyCount | src/main/java/org/example/cloudstorage/minio/HierarchicalMinioRepository.java:122-131 | the directory branch loses no key and adds at most one per listed key; with no refused delete it keeps the key count on success and adds at most one on failure |
| Legacy.MoveEachKeepsFailure | src/main/java/org/example/cloudstorage/minio/HierarchicalMinioRepository.java:124-130 | a failure on key k ends the loop, with the keys before it already moved |
| Legacy.MoveLoopStep | src/main/java/org/example/cloudstorage/minio/HierarchicalMinioRepository.java:124-130 | a pass that succeeds continues the loop; a failing pass is where it ends |

## Left out

- The MinIO client, its HTTP transport and bucket set-up are not modelled. The bucket is a map from key to size, and an oracle decides which requests fail. Object contents and content types are not kept, only sizes.
- MinIO's rule that a file shadows a folder of the same name in listings is not modelled. Listings follow plain S3 prefix and delimiter semantics.
- Zip streaming is not modelled: the worker thread, the pipes, the zip container format and the byte copy loop. The model keeps the listing, the order of entries, the entry names and the way the worker stops. The zip stream's refusal of a duplicate entry name counts as one more way for the worker to stop. Its failures are never reported, as in the source.
- The older repository's `download` / `downloadAsZip` are not modelled: they are not among the operations of that class covered here. They call `normalizePathAsMinioKey`, which `PathUtils` does not define. The download service's version is modelled.
- Several methods the legacy code and the manipulation service call are not defined by the gateway:
  - `deleteObject(String)` is modelled as the batch delete of that one key;
  - the two-argument `uploadObject(path, file)` is modelled as the gateway's no-clobber upload of the file's own name;
  - `getOneParentFromEndAtN` is modelled as `getParentFromEndAtN`.
- `toLowerCase` folds the ASCII, Latin-1 and Cyrillic capitals only (`Strings.LowerChar`). Other scripts, title-case letters and the locale-dependent cases are not modelled.
- Java's `strip` is modelled with a fixed whitespace set (`Strings.IsWhitespace`), not all of Unicode.
- `Paths.get` is modelled for a Unix file system only. NUL is the one character it rejects.
- The upload's markers are computed as the code does, from `getNestedDirectories(path, writtenKey)`. The written key already starts with `path`, so with a non-empty `path` the markers carry the prefix twice. `UploadFacts.UploadWritesMarkers` states exactly that. That they are the ancestors of the key holds only for an empty `path`.
- A file move writes its markers as `dir/` + postfix + postfix (`"dir/$$"`), as the code does. `ManipulationServiceImpl.WithPostfixTwice` shows this. The single-postfix markers that newer tests expect are not asserted.
- Newer test expectations that this implementation does not meet are not asserted:
  - InvalidPath on self-moves and on file/directory moves;
  - NotFound when deleting or moving a missing source;
  - "" treated as the root;
  - ancestor markers from `createEmptyDirectory`.
- The authentication and web layers, the facades and mappers, and the JPA entities are not modelled.
- UploadFacts.UploadIsAllOrNothing: holds only if no delete request fails (a refused key is covered and stays behind) and the written keys are settled (`PathUtils.Settled`: their normal form normalises to itself). The rollback passes the reported key back through normalisation, and a failing rollback delete reports its own error.
- MoveFacts.TransferMoves: requires the source path to be settled, because the stat'ed key is normalised again for the copy and the delete.
- MoveFacts.MoveFileMoves: requires a settled source. It also only says that other keys keep their size or become empty markers, since the move writes the target's markers first.
- MoveFacts.MoveDirectoryRollsBack: holds if no stat draws an error response (the existence check reads one as "absent" and may let a copy overwrite an existing key), no delete request fails (a refused key is covered and stays behind), and every key below the source relocates to a file path.
- MoveFacts.MoveDirectoryMovesData: assumes the same about stats. It also requires the keys below the source to be in normal form and relocatable to file paths. A relocated key may end up as an empty marker written afterwards.
- MoveFacts.MoveDirectoryClearsSource: under the same assumptions, a key below the source may be re-created as an empty marker rather than be gone.
- MoveFacts.MoveListedMovesData, MoveFacts.MoveListedClearsSource, MoveFacts.MoveListedKeepsOthers: make the same assumptions as the directory-move lemmas.
- DeleteFacts.DeleteRemovesTree: requires the keys below the path to be in normal form (`DeleteFacts.NormalBelow`), since each listed name is normalised again before its delete.
- DeleteFacts.DeleteStaysInTree: requires the same normal form.
- Legacy.MoveEachKeyCount: states key counts and assumes that no stat draws an error response.
- Legacy.MoveDirectoryKeyCount: states key counts, with the same stat assumption, for keys that relocate to file paths.
- Search.SearchHitHasItem: says each hit comes from some listed item, not that hits keep the listing order. Order holds by construction of `Search.Gather`.
- Metadata.ListResources: states the error cases and the existence check, not the contents of the listing. `Metadata.ListFiles` and its lemmas cover the contents.
- Metadata.ListFiles: its own contract states the error cases. What a success contains is stated by `MetadataFacts.ListFilesHidesExactlyMarkers` and `MetadataFacts.ListFilesNotFoundIffEmpty`.
