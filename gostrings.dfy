/** Option type used for optional references and failure inputs. */
module Wrappers {
  datatype Option<+T> = None | Some(value: T)
}

/**
  Go strings as the cache sees them: sequences of bytes. Converting a Go
  string to `[]byte` is then the identity, which is how the fingerprint is
  handed to SHA-512.

  This module also holds the two `path/filepath` helpers the cache relies on,
  for '/'-separated paths: `Base` (the last element of a path) and `Join`
  (a directory and a file name, without path cleaning).
 */
module GoStrings {

  newtype byte = b: int | 0 <= b < 256

  type GoString = seq<byte>

  const Slash: byte := 0x2F
  const Dot: byte := 0x2E
  const Plus: byte := 0x2B
  const Colon: byte := 0x3A

  /** `path` with every trailing '/' removed. */
  function TrimTrailingSlashes(path: GoString): (q: GoString)
    ensures q <= path
    ensures q == [] || q[|q| - 1] != Slash
    ensures forall i :: |q| <= i < |path| ==> path[i] == Slash
  {
    if path != [] && path[|path| - 1] == Slash then TrimTrailingSlashes(path[..|path| - 1]) else path
  }

  /** The bytes after the last '/' of `path` (all of it when it has none). */
  function LastElement(path: GoString): (e: GoString)
    ensures Slash !in e
    ensures |e| <= |path| && e == path[|path| - |e|..]
    ensures |e| < |path| ==> path[|path| - |e| - 1] == Slash
  {
    if path == [] || path[|path| - 1] == Slash then []
    else LastElement(path[..|path| - 1]) + [path[|path| - 1]]
  }

  /**
    `filepath.Base` on '/'-separated paths: "." for the empty path, "/" for a
    path made only of slashes, otherwise the last element once trailing
    slashes are stripped.
   */
  function Base(path: GoString): (b: GoString)
    ensures b != []
    ensures b == [Slash] || Slash !in b
    ensures path == [] ==> b == [Dot]
    ensures var t := TrimTrailingSlashes(path); path != [] ==> (t == [] <==> b == [Slash])
    ensures var t := TrimTrailingSlashes(path);
      t != [] ==> |b| <= |t| && b == t[|t| - |b|..] && (|b| == |t| || t[|t| - |b| - 1] == Slash)
  {
    if path == [] then [Dot]
    else
      var trimmed := TrimTrailingSlashes(path);
      if trimmed == [] then [Slash] else LastElement(trimmed)
  }

  /** `filepath.Join(dir, name)` without path cleaning. */
  function Join(dir: GoString, name: GoString): (p: GoString)
    ensures |p| == |dir| + 1 + |name|
    ensures p[..|dir|] == dir && p[|dir|] == Slash && p[|dir| + 1..] == name
  {
    dir + [Slash] + name
  }

  /** The base name of a joined path is the file name that was joined. */
  lemma BaseOfJoin(dir: GoString, name: GoString)
    requires name != [] && Slash !in name
    ensures Base(Join(dir, name)) == name
  {
    var p := Join(dir, name);
    assert p[|p| - 1] == name[|name| - 1];
    assert TrimTrailingSlashes(p) == p;
    assert p[|p| - |name| - 1] == Slash;
    assert forall k :: |p| - |name| <= k < |p| ==> p[k] == name[k - (|p| - |name|)];
    var e := LastElement(p);
    assert e == p[|p| - |name|..] == name;
  }

  /** A path with no '/' is its own base name. */
  lemma BaseOfPlainName(name: GoString)
    requires name != [] && Slash !in name
    ensures Base(name) == name
  {
    assert TrimTrailingSlashes(name) == name;
    assert LastElement(name) == name[0..] == name;
  }

  /** Only the part after the last '/' matters: paths that differ before it share a base name. */
  lemma BaseIgnoresDirectory(dir1: GoString, dir2: GoString, name: GoString)
    requires name != [] && Slash !in name
    ensures Base(Join(dir1, name)) == Base(Join(dir2, name))
  {
    BaseOfJoin(dir1, name);
    BaseOfJoin(dir2, name);
  }
}
