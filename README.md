# Artifact cache model

A Dafny model of the content-addressed artifact cache of luet
(`pkg/api/core/types/artifact/cache.go`), with proofs about it.

The cache has two layers:

- **Key derivation** (`cacheID`). It builds a fingerprint string and hashes it with SHA-512 into a 64-byte `OutputID`.
  - The fingerprint starts as the base name of the artifact's path.
  - If the artifact has a compiled specification that references a package, the package's fingerprint replaces the base name.
  - Then `"+<type>:<value>"` is appended for each checksum pair, in list order.
- **Byte store** (`Cache.GetFile`, `Cache.Put`) and the facade over it (`ArtifactCache.Get`, `ArtifactCache.Put`, `NewCache`).
  - Each entry is a file in one flat directory.
  - The file's name is the `%x` rendering of the key: 128 lowercase hexadecimal digits.

Modules:

- `GoStrings` (gostrings.dfy): Go strings as byte sequences, plus `filepath.Base` and `filepath.Join` on `/`-separated paths. `Wrappers` holds `Option`.
- `Hex` (hex.dfy): the `%x` rendering and its inverse `Unhex`. The inverse is what proves that the rendering is injective.
- `Fingerprints` (fingerprint.dfy):
  - the artifact fields the cache reads;
  - the fingerprint as a function;
  - how it responds to the path, the package and the checksum list.
- `Store` (store.dfy):
  - `PutSpec`, the effect of `Cache.Put` on the directory as a value;
  - the `Disk` class, which is the directory on disk: whether it exists, and a map from file name to content;
  - the `Cache` class, whose `GetFile` and `Put` methods update the `Disk` in place.
- `ArtifactCaches` (artifact_cache.dfy): the `ArtifactCache` facade.
  - `CacheID` builds the fingerprint with a loop, as the source does, and is proved equal to the fingerprint function.
  - SHA-512 is the facade's function value `sum512`. Nothing is assumed about it except its 64-byte result.

OS calls that can fail are explicit inputs to the methods:

- `OsFaults` covers `MkdirAll`, `os.Create`, `io.Copy` (which may fail after some bytes reached the file) and the clean-up `os.Remove`.
- `source` is the content read from `os.Open(a.Path)`, or `None` when the open fails.
- `statDenied` means `os.Stat` failed for a reason other than "does not exist".

Facts about the code that the model keeps:

- **Checksum order.** The code appends the checksum pairs in the order `Checksums.List()` yields them and sorts nothing. The model takes that list as given.
- **Writes in place.** `Put` creates or truncates the entry's file and copies into it; there is no temporary file and no rename. A copy failure whose clean-up `os.Remove` also fails therefore leaves the partly written file behind.
- **Checksum sensitivity.** Adding a pair always changes the fingerprint (`InsertingChecksumChangesFingerprint`). Replacing a pair changes it exactly when the rendered `"+t:v"` changes (`ReplacingChecksum`). If checksum types contain no `:`, different pairs always render differently (`RenderInjective`); otherwise two different pairs can render alike (`RenderAmbiguous`).
- **Lookup misses.** `GetFile` treats only an `os.IsNotExist` error from `os.Stat` as a miss. Any other `Stat` error makes it report a hit with the entry's path (`Store.Cache.GetFile`, input `statDenied`).

## Model

| member | source | states |
|---|---|---|
| `GoStrings.TrimTrailingSlashes` | pkg/api/core/types/artifact/cache.go:46 | The result is a prefix of the path that does not end in `/`, and everything removed was `/`: exactly the trailing slashes are stripped. |
| `GoStrings.LastElement` | pkg/api/core/types/artifact/cache.go:46 | The result is a suffix of the path with no `/`, and it is either the whole path or preceded by a `/`: exactly the last element. |
| `GoStrings.Base` | pkg/api/core/types/artifact/cache.go:46 | The base name is never empty, and it is `"/"` or contains no `/`. The empty path gives `"."`. A non-empty path gives `"/"` exactly when it is made only of slashes. Otherwise the result is the last element of the path once trailing slashes are stripped (`"a/b/"` gives `"b"`). |
| `GoStrings.BaseOfJoin` | pkg/api/core/types/artifact/cache.go:46 | The base name of `dir + "/" + name`, for a non-empty name without `/`, is exactly `name`. |
| `GoStrings.BaseOfPlainName` | pkg/api/core/types/artifact/cache.go:46 | A non-empty path without `/` is its own base name. |
| `GoStrings.BaseIgnoresDirectory` | pkg/api/core/types/artifact/cache.go:46 | Two paths that differ only in their directory have the same base name, so without a package they start the same fingerprint. |
| `GoStrings.Join` | pkg/api/core/types/artifact/cache.go:64 | The path of an entry is the directory, one `/`, then the file name. |
| `Hex.Digit` | pkg/api/core/types/artifact/cache.go:63 | A nibble becomes one lowercase hexadecimal digit, and `DigitValue` reads that digit back as the same nibble. |
| `Hex.Hex` | pkg/api/core/types/artifact/cache.go:63 | The `%x` rendering has two characters per byte, and every character is `0`-`9` or `a`-`f`. |
| `Hex.HexAt` | pkg/api/core/types/artifact/cache.go:63 | Byte `i` appears at positions `2i` (high nibble) and `2i+1` (low nibble). |
| `Hex.UnhexHex` | pkg/api/core/types/artifact/cache.go:63 | Parsing a rendering gives back the bytes it was made from. |
| `Hex.HexInjective` | pkg/api/core/types/artifact/cache.go:63 | Two byte sequences with the same rendering are equal. |
| `Fingerprints.Start` | pkg/api/core/types/artifact/cache.go:46-49 | With a package present, the start token is the package fingerprint. Otherwise it is a base name: non-empty, and `"/"` or free of `/`. |
| `Fingerprints.Render` | pkg/api/core/types/artifact/cache.go:54 | `"+%s:%s"` has the type and value plus two bytes, with `+` first and `:` right after the type. |
| `Fingerprints.Suffixes` | pkg/api/core/types/artifact/cache.go:50-56 | The appended part has exactly two bytes plus the lengths of the type and the value for each pair (`RenderedLength`), so at least two bytes per pair. |
| `Fingerprints.Fingerprint` | pkg/api/core/types/artifact/cache.go:46-56 | The fingerprint begins with the start token, its length is the token's plus `RenderedLength` of the checksums, and with no checksums it is the start token. |
| `Fingerprints.SuffixesAppend` | pkg/api/core/types/artifact/cache.go:50-56 | The suffix appended for a concatenated checksum list is the concatenation of the suffixes of its parts. |
| `Fingerprints.FingerprintShape` | pkg/api/core/types/artifact/cache.go:46-56 | The fingerprint is the start token followed by the pairs' renderings in list order, split at any index. With no checksums it is the start token alone. |
| `Fingerprints.PackageOverridesPath` | pkg/api/core/types/artifact/cache.go:46-49 | With a package present, the fingerprint starts with the package fingerprint and does not depend on the path. |
| `Fingerprints.PathContributesBaseName` | pkg/api/core/types/artifact/cache.go:46-49 | Without a package, the fingerprint starts with the base name of the path. Paths with the same base name give the same fingerprint. |
| `Fingerprints.SuffixesAround` | pkg/api/core/types/artifact/cache.go:50-56 | The suffix of a list is the suffix of the pairs before a position, then that pair's `"+t:v"`, then the suffix of the pairs after it. |
| `Fingerprints.InsertingChecksumChangesFingerprint` | pkg/api/core/types/artifact/cache.go:50-56 | Inserting a pair anywhere in the list lengthens the fingerprint by that pair's rendering, so the fingerprint changes. |
| `Fingerprints.ReplacingChecksum` | pkg/api/core/types/artifact/cache.go:50-56 | Replacing one pair leaves the fingerprint unchanged exactly when the old and new pairs render to the same `"+t:v"`. |
| `Fingerprints.RenderInjective` | pkg/api/core/types/artifact/cache.go:54 | If neither checksum type contains `:`, equal renderings mean equal pairs. |
| `Fingerprints.RenderAmbiguous` | pkg/api/core/types/artifact/cache.go:54 | The pairs `("a:b","c")` and `("a","b:c")` differ but both render as `"+a:b:c"`. |
| `Fingerprints.SingleChecksumFingerprint` | pkg/api/core/types/artifact/cache.go:45-56 | A path `dir/name` with no compiled specification and one pair `(t, v)` has the fingerprint `name + "+" + t + ":" + v`. |
| `Store.FileName` | pkg/api/core/types/artifact/cache.go:63 | The file name of a key has 128 lowercase hexadecimal characters and no `/`. |
| `Store.FileNameInjective` | pkg/api/core/types/artifact/cache.go:79 | Distinct keys never share a file name. |
| `Store.PutSpec` | pkg/api/core/types/artifact/cache.go:74-95 | See the list below this table. |
| `Store.PutOverwrites` | pkg/api/core/types/artifact/cache.go:74-95 | Two successful stores under one key leave what the second alone would have left: the last write wins. |
| `Store.PutIdempotent` | pkg/api/core/types/artifact/cache.go:74-95 | Storing the same content twice changes nothing the second time. |
| `Store.Cache.GetFile` | pkg/api/core/types/artifact/cache.go:61-71 | It reports a hit exactly when the entry's file exists or `Stat` failed for another reason; with the directory missing, only the latter. A hit returns `dir/hex(id)` with no error. A miss returns the empty path and `NotFound`. It changes nothing. |
| `Store.Cache.Put` | pkg/api/core/types/artifact/cache.go:74-95 | The new directory state and the result are those of `PutSpec`. It keeps the invariant that a missing directory holds no files. |
| `ArtifactCaches.Key` | pkg/api/core/types/artifact/cache.go:57 | The key is `sum512` applied to the fingerprint's bytes, and to nothing else. |
| `ArtifactCaches.KeyDeterministic` | pkg/api/core/types/artifact/cache.go:57 | The key depends on the fingerprint alone: equal fingerprints give equal keys. |
| `ArtifactCaches.KeyIgnoresPathWithPackage` | pkg/api/core/types/artifact/cache.go:46-49 | With a package present, changing the artifact's path alone does not change its key. |
| `ArtifactCaches.AddedChecksumChangesKey` | pkg/api/core/types/artifact/cache.go:50-57 | Adding a checksum pair changes the fingerprint. It also changes the key unless SHA-512 collides on the two fingerprints. |
| `ArtifactCaches.ArtifactCache.NewCache` | pkg/api/core/types/artifact/cache.go:41-43 | The new cache's store is a fresh `Cache` on the given directory. |
| `ArtifactCaches.ArtifactCache.CacheID` | pkg/api/core/types/artifact/cache.go:45-58 | The loop that builds the fingerprint computes exactly `Fingerprint(a)`, and the key is its hash. |
| `ArtifactCaches.ArtifactCache.Get` | pkg/api/core/types/artifact/cache.go:97-100 | Lookup of the artifact's key. It succeeds with `dir/hex(cacheID(a))` exactly when `GetFile` reports a hit. Otherwise it returns the empty path and `NotFound`, as it always does when the directory is missing and `Stat` reports non-existence. |
| `ArtifactCaches.ArtifactCache.Put` | pkg/api/core/types/artifact/cache.go:102-109 | If opening `a.Path` fails, it returns the zero key, 0 and an error, and the directory is untouched. Otherwise it behaves as `PutSpec` with the key `cacheID(a)` and the file's bytes. |
| `ArtifactCaches.PutThenGet` | pkg/api/core/types/artifact/cache.go:97-109 | After a successful `Put`, `Get` returns `dir/hex(cacheID(a))` with no error, and that entry holds exactly the stored bytes. `Put` succeeds exactly when no directory, create or copy fault occurs. |

What `Store.PutSpec` states:

- It keeps the invariant that a missing directory holds no files.
- No entry other than `hex(id)` changes.
- It succeeds exactly when mkdir (needed only if the directory is missing), create and copy all succeed.
- On success the directory exists, `hex(id)` holds exactly the content (replacing any earlier content), and the result is `(id, |content|, nil)`.
- Every failure returns the zero key and 0.
- If mkdir fails, the state is unchanged.
- If create fails, the entries are unchanged.
- If the copy fails, `hex(id)` is removed. If the removal also fails, `hex(id)` holds the bytes that were copied.

## Left out

- SHA-512 itself: it is the function value `sum512`, and only its 64-byte result is known. No property assumes it is collision-free, except `AddedChecksumChangesKey`, which states that premise for the two fingerprints involved.
- `Checksums.List()` ordering and `GetFingerPrint()`: their code is not part of this model. The checksum list and the package fingerprint are inputs.
- `filepath.Join` path cleaning: the path is `dir + "/" + name`. Whenever `dir` is not already clean (empty, ending in `/`, or holding `./`, `//` or `..` elements such as `"./cache"` or `"a/../b"`), Go returns the cleaned path instead.
- `filepath.Base` is modelled only for `/` separators (no volume names).
- Error messages from `errors.New` and `errors.Wrapf`: only the error kind is modelled.
- The directory mode `0755`, file handles and the deferred `Close` calls: they do not change the modelled state.
- Streaming: the reader is the whole byte sequence it yields. A copy failure is described by how many bytes reached the file.
- Store.Cache.Put: the byte count is a `nat`. The model does not state the `int64` bound on `written`.
- Concurrent `Get`/`Put` on one directory: the code takes no locks, and the resulting races happen at the filesystem level. Each method here runs alone.
- The rest of the file system: `Disk` is only the cache directory, so the artifact's source file is an input, not a file in the model.
- Aliasing between the source file and the entry: when `a.Path` names the entry's own file (possible with a package present, since the key then ignores the path), `os.Open` succeeds, `os.Create` truncates that same file, `io.Copy` reads 0 bytes and `Put` returns `(id, 0, nil)` with the artifact's bytes gone. The model reads the source before the store is touched, so it does not show this case; `PutThenGet` speaks of the bytes the reader yielded.
