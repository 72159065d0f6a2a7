/**
  The artifact-level facade (`ArtifactCache` in
  pkg/api/core/types/artifact/cache.go): it derives an artifact's key from
  its fingerprint and forwards to the byte store.

  SHA-512 is not computed here: an `ArtifactCache` holds it as the function
  value `sum512`, about which nothing is assumed except that it yields 64
  bytes.
 */
module ArtifactCaches {
  import opened Wrappers
  import opened GoStrings
  import opened Fingerprints
  import opened Store

  /** The key of an artifact: SHA-512 of the bytes of its fingerprint. */
  function Key(sum512: seq<byte> -> OutputID, a: Artifact): OutputID
  {
    sum512(Fingerprint(a))
  }

  /** Equal fingerprints give the same key, whatever else differs between the artifacts. */
  lemma KeyDeterministic(sum512: seq<byte> -> OutputID, a: Artifact, b: Artifact)
    requires Fingerprint(a) == Fingerprint(b)
    ensures Key(sum512, a) == Key(sum512, b)
  {
  }

  /** With a package present, moving the artifact to another path keeps its key. */
  lemma KeyIgnoresPathWithPackage(sum512: seq<byte> -> OutputID, a: Artifact, path: GoString)
    requires HasPackage(a)
    ensures Key(sum512, a.(path := path)) == Key(sum512, a)
  {
    PackageOverridesPath(a, path);
  }

  /**
    Adding a checksum pair anywhere in the list gives a different key,
    provided the hash does not collide on the two fingerprints.
   */
  lemma AddedChecksumChangesKey(sum512: seq<byte> -> OutputID, a: Artifact, xs: seq<Checksum>, c: Checksum, ys: seq<Checksum>)
    requires a.checksums == xs + ys
    requires var b := a.(checksums := xs + [c] + ys);
      Fingerprint(b) != Fingerprint(a) ==> sum512(Fingerprint(b)) != sum512(Fingerprint(a))
    ensures Fingerprint(a.(checksums := xs + [c] + ys)) != Fingerprint(a)
    ensures Key(sum512, a.(checksums := xs + [c] + ys)) != Key(sum512, a)
  {
    InsertingChecksumChangesFingerprint(Start(a), xs, c, ys);
  }

  class ArtifactCache {
    const store: Cache
    const sum512: seq<byte> -> OutputID

    /** `NewCache(dir)`: a facade over the byte store for `dir`, on the directory `disk`. */
    constructor NewCache(dir: GoString, disk: Disk, sum512: seq<byte> -> OutputID)
      ensures store.dir == dir && store.disk == disk && this.sum512 == sum512
      ensures fresh(store)
    {
      store := new Cache(dir, disk);
      this.sum512 := sum512;
    }

    /**
      `cacheID`: start from the base name of the path, let the package
      fingerprint replace it when there is one, append "+<type>:<value>" for
      each checksum pair, and hash the result.
     */
    method CacheID(a: Artifact) returns (id: OutputID)
      ensures id == sum512(Fingerprint(a))
    {
      var fingerprint := Base(a.path);
      if a.compileSpec.Some? && a.compileSpec.value.package.Some? {
        fingerprint := a.compileSpec.value.package.value.fingerprint;
      }
      assert fingerprint == Start(a) + Suffixes([]);
      if |a.checksums| > 0 {
        var list := a.checksums;
        for i := 0 to |list|
          invariant fingerprint == Start(a) + Suffixes(list[..i])
        {
          SuffixesStep(list, i);
          Associative(Start(a), Suffixes(list[..i]), Render(list[i]));
          fingerprint := fingerprint + Render(list[i]);
        }
        assert list[..|list|] == list;
      }
      id := sum512(fingerprint);
    }

    /** `Get`: the path of the artifact's entry, or a not-found error. */
    method Get(a: Artifact, statDenied: bool) returns (path: GoString, err: Option<Error>)
      requires store.disk.Valid()
      ensures !store.disk.dirExists && !statDenied ==> err == Some(NotFound)
      ensures err.None? <==> statDenied || FileName(Key(sum512, a)) in store.disk.entries
      ensures err.None? ==> path == Join(store.dir, FileName(Key(sum512, a)))
      ensures err.Some? ==> path == [] && err == Some(NotFound)
    {
      var id := CacheID(a);
      var found;
      path, found, err := store.GetFile(id, statDenied);
    }

    /**
      `Put`: open the artifact's file (`source` is its content, or None when
      `os.Open` fails) and store its content under the artifact's key.
     */
    method Put(a: Artifact, source: Option<seq<byte>>, f: OsFaults) returns (r: PutResult)
      requires store.disk.Valid()
      modifies store.disk
      ensures store.disk.Valid()
      ensures source.None? ==> r == PutResult(ZeroID, 0, Some(OpenFailed)) && store.disk.State() == old(store.disk.State())
      ensures source.Some? ==> (store.disk.State(), r) == PutSpec(old(store.disk.State()), Key(sum512, a), source.value, f)
    {
      if source.None? {
        return PutResult(ZeroID, 0, Some(OpenFailed));
      }
      var id := CacheID(a);
      r := store.Put(id, source.value, f);
    }
  }

  /**
    Storing an artifact and then looking it up: when the store succeeds, the
    lookup finds the entry, and the entry holds exactly the bytes the reader
    yielded.
   */
  method PutThenGet(c: ArtifactCache, a: Artifact, content: seq<byte>, f: OsFaults, statDenied: bool)
    returns (put: PutResult, path: GoString, err: Option<Error>)
    requires c.store.disk.Valid()
    modifies c.store.disk
    ensures put.err.None? <==> (old(c.store.disk.dirExists) || !f.mkdirFails) && !f.createFails && f.copyFailsAfter.None?
    ensures put.err.None? ==> put == PutResult(Key(c.sum512, a), |content|, None)
    ensures put.err.None? ==> err == None && path == Join(c.store.dir, FileName(Key(c.sum512, a)))
    ensures put.err.None? ==> var name := FileName(Key(c.sum512, a));
      name in c.store.disk.entries && c.store.disk.entries[name] == content
  {
    put := c.Put(a, Some(content), f);
    path, err := c.Get(a, statDenied);
  }
}
