/**
  The byte store (`Cache` in pkg/api/core/types/artifact/cache.go): entries
  are files in one flat directory, each named by the lowercase hexadecimal
  rendering of its 64-byte key.

  The directory on disk is a `Disk` object: whether the directory exists and
  the content of each file in it by file name. The outcome of each OS call
  that can fail (creating the directory, creating the file, copying the
  content, removing a partial file) is an `OsFaults` input.
 */
module Store {
  import opened Wrappers
  import opened GoStrings
  import Hex

  /** `n` zero bytes. */
  function Zeros(n: nat): (z: seq<byte>)
    ensures |z| == n && forall i :: 0 <= i < n ==> z[i] == 0
  {
    if n == 0 then [] else Zeros(n - 1) + [0]
  }

  /** A cache key: the 64 bytes of a SHA-512 sum. */
  type OutputID = s: seq<byte> | |s| == 64 witness Zeros(64)

  /** `OutputID{}`, returned on every failure. */
  const ZeroID: OutputID := Zeros(64)

  /** The error kinds the cache returns; the wrapped messages are not modelled. */
  datatype Error = NotFound | MkdirFailed | CreateFailed | CopyFailed | OpenFailed

  /**
    What the OS does during one `Put`: whether `MkdirAll` fails (it cannot
    when the directory is already there), whether `os.Create` fails, whether
    `io.Copy` fails after some number of bytes reached the file, and whether
    the clean-up `os.Remove` fails.
   */
  datatype OsFaults = OsFaults(mkdirFails: bool, createFails: bool, copyFailsAfter: Option<nat>, removeFails: bool)

  /** What `Put` returns: the key, the number of bytes written and the error. */
  datatype PutResult = PutResult(id: OutputID, written: nat, err: Option<Error>)

  /** The cache directory as a value. */
  datatype DirState = DirState(dirExists: bool, entries: map<GoString, seq<byte>>)

  /** A directory that does not exist holds no files. */
  predicate Consistent(s: DirState)
  {
    s.dirExists || s.entries == map[]
  }

  /** The file name of a key: `fmt.Sprintf("%x", id)`. */
  function FileName(id: OutputID): (name: GoString)
    ensures |name| == 128
    ensures forall i :: 0 <= i < |name| ==> Hex.IsLowerHexDigit(name[i])
    ensures Slash !in name
  {
    Hex.Hex(id)
  }

  /** Distinct keys never share a file. */
  lemma FileNameInjective(a: OutputID, b: OutputID)
    requires FileName(a) == FileName(b)
    ensures a == b
  {
    Hex.HexInjective(a, b);
  }

  /** The bytes that reached the file when the copy stopped after `k` of them. */
  function Prefix(content: seq<byte>, k: nat): (p: seq<byte>)
    ensures p <= content
    ensures |p| == if k <= |content| then k else |content|
  {
    if k <= |content| then content[..k] else content
  }

  /** The effect and result of `Cache.Put(id, reader)` when the reader yields `content`. */
  function PutSpec(s: DirState, id: OutputID, content: seq<byte>, f: OsFaults): (r: (DirState, PutResult))
    ensures Consistent(s) ==> Consistent(r.0)
    ensures forall n :: n in s.entries && n != FileName(id) ==> n in r.0.entries && r.0.entries[n] == s.entries[n]
    ensures forall n :: n in r.0.entries && n != FileName(id) ==> n in s.entries
    ensures r.1.err.None? <==> (s.dirExists || !f.mkdirFails) && !f.createFails && f.copyFailsAfter.None?
    ensures r.1.err.None? ==> r.0 == DirState(true, s.entries[FileName(id) := content]) && r.1 == PutResult(id, |content|, None)
    ensures r.1.err.Some? ==> r.1.id == ZeroID && r.1.written == 0
    ensures !s.dirExists && f.mkdirFails ==> r.0 == s && r.1.err == Some(MkdirFailed)
    ensures (s.dirExists || !f.mkdirFails) && f.createFails ==> r.0 == s.(dirExists := true) && r.1.err == Some(CreateFailed)
    ensures (s.dirExists || !f.mkdirFails) && !f.createFails && f.copyFailsAfter.Some? ==>
      && r.0.dirExists && r.1.err == Some(CopyFailed)
      && (if f.removeFails then r.0.entries == s.entries[FileName(id) := Prefix(content, f.copyFailsAfter.value)]
          else r.0.entries == s.entries - {FileName(id)})
  {
    var name := FileName(id);
    if !s.dirExists && f.mkdirFails then (s, PutResult(ZeroID, 0, Some(MkdirFailed)))
    else if f.createFails then (s.(dirExists := true), PutResult(ZeroID, 0, Some(CreateFailed)))
    else match f.copyFailsAfter
      case Some(k) =>
        var left := if f.removeFails then s.entries[name := Prefix(content, k)] else s.entries - {name};
        (DirState(true, left), PutResult(ZeroID, 0, Some(CopyFailed)))
      case None =>
        (DirState(true, s.entries[name := content]), PutResult(id, |content|, None))
  }

  /** Last write wins: a second successful `Put` under the same key leaves what it alone would have. */
  lemma PutOverwrites(s: DirState, id: OutputID, c1: seq<byte>, f1: OsFaults, c2: seq<byte>, f2: OsFaults)
    requires PutSpec(s, id, c1, f1).1.err.None?
    requires PutSpec(PutSpec(s, id, c1, f1).0, id, c2, f2).1.err.None?
    ensures PutSpec(PutSpec(s, id, c1, f1).0, id, c2, f2) == PutSpec(s, id, c2, f1)
    ensures PutSpec(PutSpec(s, id, c1, f1).0, id, c2, f2).0.entries[FileName(id)] == c2
  {
    assert s.entries[FileName(id) := c1][FileName(id) := c2] == s.entries[FileName(id) := c2];
  }

  /** Storing the same content twice changes nothing the second time. */
  lemma PutIdempotent(s: DirState, id: OutputID, content: seq<byte>, f1: OsFaults, f2: OsFaults)
    requires PutSpec(s, id, content, f1).1.err.None?
    requires PutSpec(PutSpec(s, id, content, f1).0, id, content, f2).1.err.None?
    ensures PutSpec(PutSpec(s, id, content, f1).0, id, content, f2).0 == PutSpec(s, id, content, f1).0
  {
    var t := PutSpec(s, id, content, f1).0;
    assert t.entries[FileName(id) := content] == t.entries;
  }

  /** A directory on disk that the cache owns. */
  class Disk {
    var dirExists: bool
    var entries: map<GoString, seq<byte>>

    constructor (dirExists: bool, entries: map<GoString, seq<byte>>)
      requires dirExists || entries == map[]
      ensures Valid()
      ensures this.dirExists == dirExists && this.entries == entries
    {
      this.dirExists := dirExists;
      this.entries := entries;
    }

    function State(): DirState
      reads this
    {
      DirState(dirExists, entries)
    }

    ghost predicate Valid()
      reads this
    {
      Consistent(State())
    }
  }

  /** `Cache`: the cache directory's path and the directory on disk. */
  class Cache {
    const dir: GoString
    const disk: Disk

    constructor (dir: GoString, disk: Disk)
      ensures this.dir == dir && this.disk == disk
    {
      this.dir := dir;
      this.disk := disk;
    }

    /**
      `GetFile`: the path of the entry for `id`. Only a "does not exist"
      answer from `os.Stat` is a miss; `statDenied` stands for `os.Stat`
      failing for any other reason, which the source reports as a hit. A
      file in a directory that does not exist is a "does not exist" answer.
     */
    method GetFile(id: OutputID, statDenied: bool) returns (path: GoString, found: bool, err: Option<Error>)
      requires disk.Valid()
      ensures found <==> statDenied || FileName(id) in disk.entries
      ensures !disk.dirExists && !statDenied ==> !found
      ensures found ==> path == Join(dir, FileName(id)) && err == None
      ensures !found ==> path == [] && err == Some(NotFound)
    {
      var filename := FileName(id);
      var filepath := Join(dir, filename);
      var notExist := !statDenied && filename !in disk.entries;
      if notExist {
        return [], false, Some(NotFound);
      }
      return filepath, true, None;
    }

    /**
      `Put`: create the directory if needed, create (or truncate) the entry's
      file, copy `content` into it; if the copy fails, remove the file.
     */
    method Put(id: OutputID, content: seq<byte>, f: OsFaults) returns (r: PutResult)
      requires disk.Valid()
      modifies disk
      ensures disk.Valid()
      ensures (disk.State(), r) == PutSpec(old(disk.State()), id, content, f)
    {
      if !disk.dirExists {
        if f.mkdirFails {
          return PutResult(ZeroID, 0, Some(MkdirFailed));
        }
        disk.dirExists := true;
      }
      var filename := FileName(id);
      if f.createFails {
        return PutResult(ZeroID, 0, Some(CreateFailed));
      }
      disk.entries := disk.entries[filename := []];
      match f.copyFailsAfter {
        case Some(k) =>
          assert disk.entries[filename := Prefix(content, k)] == old(disk.entries)[filename := Prefix(content, k)];
          disk.entries := disk.entries[filename := Prefix(content, k)];
          if !f.removeFails {
            assert disk.entries - {filename} == old(disk.entries) - {filename};
            disk.entries := disk.entries - {filename};
          }
          return PutResult(ZeroID, 0, Some(CopyFailed));
        case None =>
          assert disk.entries[filename := content] == old(disk.entries)[filename := content];
          disk.entries := disk.entries[filename := content];
          return PutResult(id, |content|, None);
      }
    }
  }
}
