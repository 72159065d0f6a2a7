/**
  The fingerprint string from which an artifact's cache key is hashed
  (`ArtifactCache.cacheID` in pkg/api/core/types/artifact/cache.go): a start
  token (the package fingerprint, or else the base name of the artifact's
  path) followed by "+<type>:<value>" for each checksum pair, in list order.
 */
module Fingerprints {
  import opened Wrappers
  import opened GoStrings

  /** A package as far as the cache sees it: the value of its `GetFingerPrint()`. */
  datatype Package = Package(fingerprint: GoString)

  /** A compiled specification, which may or may not reference a package. */
  datatype CompileSpec = CompileSpec(package: Option<Package>)

  /** A checksum pair as `Checksums.List()` yields it: (type, value). */
  type Checksum = (GoString, GoString)

  /** The fields of a package artifact that the cache reads. */
  datatype Artifact = Artifact(path: GoString, compileSpec: Option<CompileSpec>, checksums: seq<Checksum>)

  predicate HasPackage(a: Artifact)
  {
    a.compileSpec.Some? && a.compileSpec.value.package.Some?
  }

  /** The token the fingerprint starts with. */
  function Start(a: Artifact): (t: GoString)
    ensures HasPackage(a) ==> t == a.compileSpec.value.package.value.fingerprint
    ensures !HasPackage(a) ==> t != [] && (t == [Slash] || Slash !in t)
  {
    if HasPackage(a) then a.compileSpec.value.package.value.fingerprint else Base(a.path)
  }

  /** `fmt.Sprintf("+%s:%s", t, r)`. */
  function Render(c: Checksum): (r: GoString)
    ensures |r| == 2 + |c.0| + |c.1|
    ensures r[0] == Plus && r[1 + |c.0|] == Colon
  {
    [Plus] + c.0 + [Colon] + c.1
  }

  /** The number of bytes the pairs of `cs` render to: type, value and two separators each. */
  function RenderedLength(cs: seq<Checksum>): nat
  {
    if cs == [] then 0 else RenderedLength(cs[..|cs| - 1]) + 2 + |cs[|cs| - 1].0| + |cs[|cs| - 1].1|
  }

  /** The renderings of a checksum list, concatenated in list order. */
  function Suffixes(cs: seq<Checksum>): (s: GoString)
    ensures |s| == RenderedLength(cs)
    ensures |s| >= 2 * |cs|
  {
    if cs == [] then [] else Suffixes(cs[..|cs| - 1]) + Render(cs[|cs| - 1])
  }

  /** The string that is hashed into the cache key. */
  function Fingerprint(a: Artifact): (f: GoString)
    ensures Start(a) <= f
    ensures |f| == |Start(a)| + RenderedLength(a.checksums)
    ensures a.checksums == [] ==> f == Start(a)
  {
    Start(a) + Suffixes(a.checksums)
  }

  /** The renderings of a concatenated list are the concatenated renderings. */
  lemma {:induction false} SuffixesAppend(xs: seq<Checksum>, ys: seq<Checksum>)
    ensures Suffixes(xs + ys) == Suffixes(xs) + Suffixes(ys)
  {
    if ys != [] {
      var last := ys[|ys| - 1];
      assert (xs + ys)[..|xs + ys| - 1] == xs + ys[..|ys| - 1];
      SuffixesAppend(xs, ys[..|ys| - 1]);
    } else {
      assert xs + ys == xs;
    }
  }

  /** Extending a prefix of the list by one pair appends that pair's rendering. */
  lemma SuffixesStep(cs: seq<Checksum>, i: nat)
    requires i < |cs|
    ensures Suffixes(cs[..i + 1]) == Suffixes(cs[..i]) + Render(cs[i])
  {
    assert cs[..i + 1][..i] == cs[..i];
  }

  /** The fingerprint is the start token followed by one rendering per pair, first pair first. */
  lemma {:induction false} FingerprintShape(a: Artifact, i: nat)
    requires i <= |a.checksums|
    ensures Fingerprint(a) == Start(a) + Suffixes(a.checksums[..i]) + Suffixes(a.checksums[i..])
    ensures a.checksums == [] ==> Fingerprint(a) == Start(a)
  {
    assert a.checksums == a.checksums[..i] + a.checksums[i..];
    SuffixesAppend(a.checksums[..i], a.checksums[i..]);
  }

  /** With a package present, the path plays no part in the fingerprint. */
  lemma PackageOverridesPath(a: Artifact, path: GoString)
    requires HasPackage(a)
    ensures Fingerprint(a.(path := path)) == Fingerprint(a)
    ensures Start(a) == a.compileSpec.value.package.value.fingerprint
  {
  }

  /** Without a package, the path contributes exactly its base name. */
  lemma PathContributesBaseName(a: Artifact, path: GoString)
    requires !HasPackage(a)
    ensures Start(a) == Base(a.path)
    ensures Base(path) == Base(a.path) ==> Fingerprint(a.(path := path)) == Fingerprint(a)
  {
  }

  /** The renderings around one pair of a list: those before it, its own, those after it. */
  lemma SuffixesAround(xs: seq<Checksum>, c: Checksum, ys: seq<Checksum>)
    ensures Suffixes(xs + [c] + ys) == Suffixes(xs) + Render(c) + Suffixes(ys)
  {
    SuffixesAppend(xs + [c], ys);
    SuffixesAppend(xs, [c]);
    assert Suffixes([c]) == Suffixes([]) + Render(c);
  }

  /** Inserting a checksum pair anywhere in the list changes the fingerprint (it grows). */
  lemma InsertingChecksumChangesFingerprint(start: GoString, xs: seq<Checksum>, c: Checksum, ys: seq<Checksum>)
    ensures |start + Suffixes(xs + [c] + ys)| == |start + Suffixes(xs + ys)| + |Render(c)|
    ensures start + Suffixes(xs + [c] + ys) != start + Suffixes(xs + ys)
  {
    SuffixesAround(xs, c, ys);
    SuffixesAppend(xs, ys);
  }

  /** Equal outer parts cancel: only the middles are compared. */
  lemma CancelOuter(pre: GoString, x: GoString, y: GoString, post: GoString)
    ensures pre + x + post == pre + y + post <==> x == y
  {
    if pre + x + post == pre + y + post {
      var u := pre + x + post;
      assert |x| == |y|;
      assert x == u[|pre|..|pre| + |x|];
    }
  }

  /**
    Replacing one checksum pair by another changes the fingerprint exactly
    when the two pairs render differently.
   */
  lemma ReplacingChecksum(start: GoString, xs: seq<Checksum>, c: Checksum, d: Checksum, ys: seq<Checksum>)
    ensures start + Suffixes(xs + [c] + ys) == start + Suffixes(xs + [d] + ys) <==> Render(c) == Render(d)
  {
    var pre, post := start + Suffixes(xs), Suffixes(ys);
    StartAround(start, xs, c, ys);
    StartAround(start, xs, d, ys);
    CancelOuter(pre, Render(c), Render(d), post);
  }

  /** A fingerprint split around one pair. */
  lemma StartAround(start: GoString, xs: seq<Checksum>, c: Checksum, ys: seq<Checksum>)
    ensures start + Suffixes(xs + [c] + ys) == (start + Suffixes(xs)) + Render(c) + Suffixes(ys)
  {
    SuffixesAround(xs, c, ys);
    var u, v, w := Suffixes(xs), Render(c), Suffixes(ys);
    Associative(start, u + v, w);
    Associative(start, u, v);
  }

  /** When the checksum type holds no ':', its rendering determines the pair. */
  lemma RenderInjective(c: Checksum, d: Checksum)
    requires Colon !in c.0 && Colon !in d.0
    requires Render(c) == Render(d)
    ensures c == d
  {
    var u := Render(c);
    assert forall k :: 1 <= k < 1 + |c.0| ==> u[k] == c.0[k - 1] != Colon;
    assert forall k :: 1 <= k < 1 + |d.0| ==> u[k] == d.0[k - 1] != Colon;
    assert u[1 + |c.0|] == Colon && u[1 + |d.0|] == Colon;
    assert |c.0| == |d.0|;
    assert c.0 == u[1..1 + |c.0|] == d.0;
    assert c.1 == u[2 + |c.0|..] == d.1;
  }

  /**
    A ':' inside a checksum type makes two different pairs render alike:
    ("a:b", "c") and ("a", "b:c") both give "+a:b:c".
   */
  lemma RenderAmbiguous()
    ensures var c, d := ([0x61, Colon, 0x62], [0x63]), ([0x61], [0x62, Colon, 0x63]);
      c != d && Render(c) == Render(d)
  {
  }

  /**
    A package file with one checksum and no compiled specification: the path
    "<dir>/<name>" and the pair (t, v) give the fingerprint "<name>+<t>:<v>"
    (so "/tmp/build/foo-1.0.pkg" with ("sha256", "abc123") gives
    "foo-1.0.pkg+sha256:abc123").
   */
  lemma SingleChecksumFingerprint(dir: GoString, name: GoString, t: GoString, v: GoString)
    requires name != [] && Slash !in name
    ensures Fingerprint(Artifact(Join(dir, name), None, [(t, v)])) == name + [Plus] + t + [Colon] + v
  {
    var a := Artifact(Join(dir, name), None, [(t, v)]);
    var r := [Plus] + t + [Colon] + v;
    assert Start(a) == name by {
      BaseOfJoin(dir, name);
    }
    assert Suffixes(a.checksums) == r by {
      SuffixesSingle((t, v));
    }
    Associative(name, [Plus], t);
    Associative(name, [Plus] + t, [Colon]);
    Associative(name, [Plus] + t + [Colon], v);
  }

  lemma Associative(x: GoString, y: GoString, z: GoString)
    ensures x + (y + z) == x + y + z
  {
  }

  /** A one-pair list renders as that pair. */
  lemma SuffixesSingle(c: Checksum)
    ensures Suffixes([c]) == Render(c)
  {
    assert [c][..0] == [];
  }
}
