/**
 * The part of java.io.File the settings backup relies on, over a file system
 * held as a map from path to contents. Directories are implicit: a path names a
 * file directly inside directory `dir` when it is `dir + "/" + name` and `name`
 * holds no '/'.
 */
module Files {
  import opened Wrappers

  newtype Byte = b: int | 0 <= b < 256
  type Bytes = seq<Byte>
  type Path = string

  /** Kotlin's String.endsWith. */
  predicate EndsWith(s: string, suffix: string)
  {
    |suffix| <= |s| && s[|s| - |suffix|..] == suffix
  }

  predicate StartsWith(s: string, prefix: string)
  {
    |prefix| <= |s| && s[..|prefix|] == prefix
  }

  /** No element occurs twice. */
  predicate Distinct<T(==)>(s: seq<T>)
  {
    forall i, j :: 0 <= i < j < |s| ==> s[i] != s[j]
  }

  /** The text holds no path separator. */
  predicate NoSlash(s: string)
  {
    forall i :: 0 <= i < |s| ==> s[i] != '/'
  }

  /** `p` is a file directly inside directory `dir` (what `File(dir).listFiles()` yields). */
  predicate InDir(p: Path, dir: Path)
  {
    StartsWith(p, dir + "/") && |dir| + 1 < |p| && NoSlash(p[|dir| + 1..])
  }

  /** File.getName: the text after the last '/' of the path. */
  function BaseName(p: Path): Path
    decreases |p|
  {
    if p == [] || p[|p| - 1] == '/' then []
    else BaseName(p[..|p| - 1]) + [p[|p| - 1]]
  }

  /** The base name is the longest end of the path without a '/'. */
  lemma {:induction false} BaseNameIsLastSegment(p: Path)
    ensures NoSlash(BaseName(p))
    ensures EndsWith(p, BaseName(p))
    ensures |BaseName(p)| < |p| ==> p[|p| - |BaseName(p)| - 1] == '/'
    decreases |p|
  {
    if p != [] && p[|p| - 1] != '/' {
      var init, c := p[..|p| - 1], p[|p| - 1];
      BaseNameIsLastSegment(init);
      var n := BaseName(init);
      assert BaseName(p) == n + [c];
      assert forall i :: 0 <= i < |n| ==> (n + [c])[i] == n[i];
      assert p[|p| - |n| - 1..] == init[|init| - |n|..] + [c];
      assert |n| < |init| ==> p[|p| - |n| - 2] == init[|init| - |n| - 1];
    }
  }

  /** The base name of a file inside a directory is the part after the directory. */
  lemma {:induction false} BaseNameInDir(p: Path, dir: Path)
    requires InDir(p, dir)
    ensures BaseName(p) == p[|dir| + 1..]
  {
    BaseNameIsLastSegment(p);
    var name := BaseName(p);
    var m := |p| - |name|;
    assert p[|dir|] == (dir + "/")[|dir|] == '/';
    assert forall j :: m <= j < |p| ==> p[j] == name[j - m];
    assert forall j :: |dir| + 1 <= j < |p| ==> p[j] == p[|dir| + 1..][j - |dir| - 1];
  }

  /** Without a '/' in `s`, a file path ends with `s` exactly when its base name does. */
  lemma {:induction false} EndsWithBaseName(p: Path, dir: Path, s: string)
    requires InDir(p, dir) && NoSlash(s)
    ensures EndsWith(p, s) <==> EndsWith(BaseName(p), s)
  {
    BaseNameInDir(p, dir);
    var k := |dir| + 1;
    var name := p[k..];
    if EndsWith(p, s) {
      assert p[|dir|] == (dir + "/")[|dir|] == '/';
      assert forall j :: |p| - |s| <= j < |p| ==> p[j] == s[j - (|p| - |s|)];
      assert name[|name| - |s|..] == p[|p| - |s|..];
    }
    if EndsWith(name, s) {
      assert p[|p| - |s|..] == name[|name| - |s|..];
    }
  }

  /** A directory listing: every file of `dir`, each exactly once, in some order. */
  ghost predicate IsListing(files: map<Path, Bytes>, dir: Path, names: seq<Path>)
  {
    && Distinct(names)
    && (forall p :: p in names <==> p in files && InDir(p, dir))
  }

  /** The device's storage; `files` is the whole content of every file. */
  class FileSystem {
    var files: map<Path, Bytes>

    constructor (initial: map<Path, Bytes>)
      ensures files == initial
    {
      files := initial;
    }

    /**
     * File(dir).listFiles(), with a missing directory (null) read as empty.
     * Java gives no order, so any order may come back.
     */
    method ListFiles(dir: Path) returns (names: seq<Path>)
      ensures IsListing(files, dir, names)
    {
      var rest := set p | p in files && InDir(p, dir);
      names := [];
      while rest != {}
        invariant forall i, j :: 0 <= i < j < |names| ==> names[i] != names[j]
        invariant forall p :: p in names || p in rest <==> p in files && InDir(p, dir)
        invariant forall p :: p in rest ==> p !in names
        decreases rest
      {
        var p :| p in rest;
        names := names + [p];
        rest := rest - {p};
      }
    }

    /** File.readBytes: the contents, or the FileNotFoundException as None. */
    method ReadBytes(p: Path) returns (data: Option<Bytes>)
      ensures p in files ==> data == Some(files[p])
      ensures p !in files ==> data == None
    {
      data := if p in files then Some(files[p]) else None;
    }

    /** File.writeBytes: creates or overwrites the file. */
    method WriteBytes(p: Path, data: Bytes)
      modifies this
      ensures files == old(files)[p := data]
    {
      files := files[p := data];
    }

    /** File.delete: removes the file if it is there. */
    method Delete(p: Path)
      modifies this
      ensures files == old(files) - {p}
    {
      files := files - {p};
    }
  }
}
