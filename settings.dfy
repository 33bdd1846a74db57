/**
 * The settings backup of App: dumpSettingsToFile writes the config file and the
 * device and plugin registries into one archive; loadSettingsFromFile checks the
 * archive's marker, drops the current settings (dropSettings) and writes the
 * archived ones back. The ZIP stream is a sequence of named blobs.
 */
module Settings {
  import opened Wrappers
  import opened Files

  /** The entry every backup starts with; a restore refuses an archive without it. */
  const MarkerName: string := "dcnnt.timestamp.txt"
  /** The archive name restored to the config file. */
  const ConfName: string := "conf.json"

  datatype Blob = Blob(name: string, data: Bytes)
  type Archive = seq<Blob>

  /**
   * Where the settings live: conf.path, dm.path with dm.EXTENSION, and
   * pm.directory with pm.SUFFIX.
   */
  datatype Layout = Layout(confPath: Path, deviceDir: Path, deviceExt: string,
                           pluginDir: Path, pluginSuffix: string)

  /**
   * The three places are apart: the suffixes hold no '/', the config file is
   * in neither directory and neither directory lies inside the other.
   */
  predicate WellFormed(L: Layout)
  {
    && NoSlash(L.deviceExt) && NoSlash(L.pluginSuffix)
    && !StartsWith(L.confPath, L.deviceDir + "/")
    && !StartsWith(L.confPath, L.pluginDir + "/")
    && !StartsWith(L.deviceDir + "/", L.pluginDir + "/")
    && !StartsWith(L.pluginDir + "/", L.deviceDir + "/")
  }

  // ---------------------------------------------------------------- dump

  /** The outcome of a dump: the archive, or the exception readBytes raises on a missing config file. */
  datatype DumpResult = Dumped(archive: Archive) | ConfigUnreadable

  /**
   * The entries writeFileToArchive makes of `paths`: each file under its base
   * name with its bytes. (A missing file adds nothing here; a dump only
   * passes files that exist.)
   */
  function FileBlobs(files: map<Path, Bytes>, paths: seq<Path>): Archive
  {
    if paths == [] then []
    else
      var p := paths[|paths| - 1];
      FileBlobs(files, paths[..|paths| - 1]) + (if p in files then [Blob(BaseName(p), files[p])] else [])
  }

  lemma {:induction false} FileBlobsAppend(files: map<Path, Bytes>, paths: seq<Path>, p: Path)
    requires p in files
    ensures FileBlobs(files, paths + [p]) == FileBlobs(files, paths) + [Blob(BaseName(p), files[p])]
  {
    assert (paths + [p])[..|paths|] == paths;
  }

  lemma {:induction false} FileBlobsConcat(files: map<Path, Bytes>, a: seq<Path>, b: seq<Path>)
    ensures FileBlobs(files, a + b) == FileBlobs(files, a) + FileBlobs(files, b)
    decreases |b|
  {
    if b != [] {
      var b' := b[..|b| - 1];
      var p := b[|b| - 1];
      assert (a + b)[..|a + b| - 1] == a + b';
      FileBlobsConcat(files, a, b');
    } else {
      assert a + b == a;
    }
  }

  /** Entry `i` of FileBlobs is the file `paths[i]`. */
  lemma {:induction false} FileBlobsAt(files: map<Path, Bytes>, paths: seq<Path>, i: nat)
    requires forall p :: p in paths ==> p in files
    requires i < |paths|
    ensures |FileBlobs(files, paths)| == |paths|
    ensures FileBlobs(files, paths)[i] == Blob(BaseName(paths[i]), files[paths[i]])
    decreases |paths|
  {
    var init := paths[..|paths| - 1];
    if i < |init| {
      FileBlobsAt(files, init, i);
    } else if init != [] {
      FileBlobsAt(files, init, 0);
    }
  }

  /**
   * What a complete dump holds, given the order in which the two directories
   * were listed: the marker with the time stamp, the config file, every device
   * file, every plugin file.
   */
  function DumpArchive(files: map<Path, Bytes>, L: Layout, stamp: Bytes,
                       devices: seq<Path>, plugins: seq<Path>): Archive
  {
    [Blob(MarkerName, stamp)] + FileBlobs(files, [L.confPath] + devices + plugins)
  }

  /** The ZipOutputStream being written. */
  class ArchiveWriter {
    var entries: Archive

    constructor ()
      ensures entries == []
    {
      entries := [];
    }

    /** putNextEntry, write, closeEntry. */
    method PutEntry(name: string, data: Bytes)
      modifies this
      ensures entries == old(entries) + [Blob(name, data)]
    {
      entries := entries + [Blob(name, data)];
    }
  }

  /** writeFileToArchive: the file's whole content under its base name. */
  method WriteFileToArchive(zip: ArchiveWriter, fs: FileSystem, path: Path) returns (ok: bool)
    modifies zip
    ensures ok <==> path in fs.files
    ensures ok ==> zip.entries == old(zip.entries) + [Blob(BaseName(path), fs.files[path])]
    ensures !ok ==> zip.entries == old(zip.entries)
  {
    var data := fs.ReadBytes(path);
    if data.None? {
      return false;
    }
    zip.PutEntry(BaseName(path), data.value);
    ok := true;
  }

  /** One `listFiles()?.forEach { writeFileToArchive(zip, it) }` of dumpSettingsToFile. */
  method WriteListedFiles(zip: ArchiveWriter, fs: FileSystem, paths: seq<Path>)
    requires forall p :: p in paths ==> p in fs.files
    modifies zip
    ensures zip.entries == old(zip.entries) + FileBlobs(fs.files, paths)
  {
    var i := 0;
    while i < |paths|
      invariant 0 <= i <= |paths|
      invariant zip.entries == old(zip.entries) + FileBlobs(fs.files, paths[..i])
    {
      var ok := WriteFileToArchive(zip, fs, paths[i]);
      FileBlobsAppend(fs.files, paths[..i], paths[i]);
      assert paths[..i + 1] == paths[..i] + [paths[i]];
      i := i + 1;
    }
    assert paths[..i] == paths;
  }

  /**
   * dumpSettingsToFile. `stamp` is the bytes of nowString(). It returns the
   * archive (the source's `true`) unless the config file is missing; the
   * ghost results are the directory listings it used.
   */
  method DumpSettingsToFile(fs: FileSystem, L: Layout, stamp: Bytes)
    returns (r: DumpResult, ghost devices: seq<Path>, ghost plugins: seq<Path>)
    ensures r.ConfigUnreadable? <==> L.confPath !in fs.files
    ensures r.Dumped? ==> IsListing(fs.files, L.deviceDir, devices)
    ensures r.Dumped? ==> IsListing(fs.files, L.pluginDir, plugins)
    ensures r.Dumped? ==> r.archive == DumpArchive(fs.files, L, stamp, devices, plugins)
  {
    var zip := new ArchiveWriter();
    zip.PutEntry(MarkerName, stamp);
    var ok := WriteFileToArchive(zip, fs, L.confPath);
    if !ok {
      return ConfigUnreadable, [], [];
    }
    ghost var written := zip.entries;
    assert written == [Blob(MarkerName, stamp), Blob(BaseName(L.confPath), fs.files[L.confPath])];
    var ds := fs.ListFiles(L.deviceDir);
    assert forall p :: p in ds ==> p in fs.files;
    WriteListedFiles(zip, fs, ds);
    var ps := fs.ListFiles(L.pluginDir);
    assert forall p :: p in ps ==> p in fs.files;
    WriteListedFiles(zip, fs, ps);
    assert zip.entries == written + FileBlobs(fs.files, ds) + FileBlobs(fs.files, ps);
    devices, plugins := ds, ps;
    DumpArchiveParts(fs.files, L, stamp, ds, ps);
    r := Dumped(zip.entries);
  }

  lemma {:induction false} DumpArchiveParts(files: map<Path, Bytes>, L: Layout, stamp: Bytes, devices: seq<Path>, plugins: seq<Path>)
    requires L.confPath in files
    ensures DumpArchive(files, L, stamp, devices, plugins)
         == [Blob(MarkerName, stamp), Blob(BaseName(L.confPath), files[L.confPath])]
            + FileBlobs(files, devices) + FileBlobs(files, plugins)
  {
    var c := [L.confPath];
    var conf := [Blob(BaseName(L.confPath), files[L.confPath])];
    FileBlobsAppend(files, [], L.confPath);
    assert [] + c == c;
    assert FileBlobs(files, c) == conf;
    FileBlobsConcat(files, c, devices);
    FileBlobsConcat(files, c + devices, plugins);
    calc {
      DumpArchive(files, L, stamp, devices, plugins);
      [Blob(MarkerName, stamp)] + FileBlobs(files, c + devices + plugins);
      [Blob(MarkerName, stamp)] + (FileBlobs(files, c + devices) + FileBlobs(files, plugins));
      [Blob(MarkerName, stamp)] + ((conf + FileBlobs(files, devices)) + FileBlobs(files, plugins));
      [Blob(MarkerName, stamp)] + conf + FileBlobs(files, devices) + FileBlobs(files, plugins);
    }
  }

  // ---------------------------------------------------------------- drop

  /** A registry file: a device file with dm.EXTENSION or a plugin file with pm.SUFFIX. */
  predicate Registry(L: Layout, p: Path)
  {
    || (InDir(p, L.deviceDir) && EndsWith(p, L.deviceExt))
    || (InDir(p, L.pluginDir) && EndsWith(p, L.pluginSuffix))
  }

  /** The files dropSettings deletes: the config file and the registry files. */
  predicate Doomed(L: Layout, p: Path)
  {
    p == L.confPath || Registry(L, p)
  }

  /** The file system once dropSettings has run. */
  function Dropped(files: map<Path, Bytes>, L: Layout): map<Path, Bytes>
  {
    map p | p in files && !Doomed(L, p) :: files[p]
  }

  /** One `listFiles()?.forEach { if ("$it".endsWith(suffix)) it.delete() }` of dropSettings. */
  method DeleteInDirWithSuffix(fs: FileSystem, dir: Path, suffix: string)
    modifies fs
    ensures fs.files == map p | p in old(fs.files) && !(InDir(p, dir) && EndsWith(p, suffix)) :: old(fs.files)[p]
  {
    var names := fs.ListFiles(dir);
    ghost var before := fs.files;
    var i := 0;
    while i < |names|
      invariant 0 <= i <= |names|
      invariant fs.files == map p | p in before && !(p in names[..i] && EndsWith(p, suffix)) :: before[p]
    {
      if EndsWith(names[i], suffix) {
        fs.Delete(names[i]);
      }
      assert names[..i + 1] == names[..i] + [names[i]];
      assert forall p :: p in names[..i + 1] <==> p in names[..i] || p == names[i];
      i := i + 1;
    }
    assert names[..i] == names;
  }

  /** dropSettings. */
  method DropSettings(fs: FileSystem, L: Layout)
    modifies fs
    ensures fs.files == Dropped(old(fs.files), L)
  {
    fs.Delete(L.confPath);
    DeleteInDirWithSuffix(fs, L.deviceDir, L.deviceExt);
    DeleteInDirWithSuffix(fs, L.pluginDir, L.pluginSuffix);
  }

  // ---------------------------------------------------------------- restore

  /**
   * The `mutableMapOf` that loadSettingsFromFile fills: a map that remembers
   * the order in which its keys were first put.
   */
  datatype LinkedMap = LinkedMap(keys: seq<string>, values: map<string, Bytes>)
  {
    ghost predicate Valid()
    {
      && Distinct(keys)
      && (forall k :: k in keys <==> k in values)
    }

    /** `m[k] = v`: a new key goes last, a known key keeps its place and takes the new value. */
    function Put(k: string, v: Bytes): (r: LinkedMap)
      requires Valid()
      ensures r.Valid()
      ensures k in r.values && r.values[k] == v
      ensures forall k' :: k' != k ==> (k' in r.values <==> k' in values)
      ensures forall k' :: k' != k && k' in values ==> r.values[k'] == values[k']
      ensures k in values ==> r.keys == keys
      ensures k !in values ==> r.keys == keys + [k]
    {
      LinkedMap(if k in values then keys else keys + [k], values[k := v])
    }
  }

  /** The map made by putting every entry of the archive, in order. */
  function Unpacked(a: Archive): (m: LinkedMap)
    ensures m.Valid()
  {
    if a == [] then LinkedMap([], map[])
    else Unpacked(a[..|a| - 1]).Put(a[|a| - 1].name, a[|a| - 1].data)
  }

  /** The first half of loadSettingsFromFile: unpack every entry into memory. */
  method Unpack(archive: Archive) returns (m: LinkedMap)
    ensures m == Unpacked(archive)
  {
    m := LinkedMap([], map[]);
    var i := 0;
    while i < |archive|
      invariant 0 <= i <= |archive|
      invariant m == Unpacked(archive[..i])
    {
      assert archive[..i + 1][..i] == archive[..i];
      m := m.Put(archive[i].name, archive[i].data);
      i := i + 1;
    }
    assert archive[..i] == archive;
  }

  /**
   * Where loadSettingsFromFile writes a blob: the else-if chain on its name;
   * None for a blob it skips.
   */
  function Route(L: Layout, name: string): (r: Option<Path>)
    ensures r.None? <==> name != ConfName && !EndsWith(name, L.deviceExt) && !EndsWith(name, L.pluginSuffix)
  {
    if name == ConfName then Some(L.confPath)
    else if EndsWith(name, L.deviceExt) then Some(L.deviceDir + "/" + name)
    else if EndsWith(name, L.pluginSuffix) then Some(L.pluginDir + "/" + name)
    else None
  }

  /** The file system after writing the blobs named `keys`, in that order. */
  function ApplyWrites(base: map<Path, Bytes>, L: Layout, keys: seq<string>, values: map<string, Bytes>): map<Path, Bytes>
    requires forall k :: k in keys ==> k in values
  {
    if keys == [] then base
    else
      var prev := ApplyWrites(base, L, keys[..|keys| - 1], values);
      var k := keys[|keys| - 1];
      match Route(L, k)
      case None => prev
      case Some(t) => prev[t := values[k]]
  }

  lemma {:induction false} ApplyWritesStep(base: map<Path, Bytes>, L: Layout, keys: seq<string>, values: map<string, Bytes>, i: nat)
    requires forall k :: k in keys ==> k in values
    requires i < |keys|
    ensures var prev := ApplyWrites(base, L, keys[..i], values);
      ApplyWrites(base, L, keys[..i + 1], values)
        == match Route(L, keys[i]) case None => prev case Some(t) => prev[t := values[keys[i]]]
  {
    assert keys[..i + 1][..i] == keys[..i];
  }

  /** The file system after a restore that passed the marker check. */
  ghost function Restored(files: map<Path, Bytes>, L: Layout, a: Archive): map<Path, Bytes>
  {
    var m := Unpacked(a);
    ApplyWrites(Dropped(files, L), L, m.keys, m.values)
  }

  lemma {:induction false} RestoredIs(files: map<Path, Bytes>, L: Layout, a: Archive, m: LinkedMap)
    requires m == Unpacked(a)
    ensures forall k :: k in m.keys ==> k in m.values
    ensures Restored(files, L, a) == ApplyWrites(Dropped(files, L), L, m.keys, m.values)
  {
  }

  /** The write loop of loadSettingsFromFile: each name in `keys`, in order, to its route. */
  method WriteRouted(fs: FileSystem, L: Layout, keys: seq<string>, values: map<string, Bytes>)
    requires forall k :: k in keys ==> k in values
    modifies fs
    ensures fs.files == ApplyWrites(old(fs.files), L, keys, values)
  {
    ghost var base := fs.files;
    var i := 0;
    while i < |keys|
      invariant 0 <= i <= |keys|
      invariant fs.files == ApplyWrites(base, L, keys[..i], values)
    {
      var name := keys[i];
      ApplyWritesStep(base, L, keys, values, i);
      if name == ConfName {
        fs.WriteBytes(L.confPath, values[name]);
      } else if EndsWith(name, L.deviceExt) {
        fs.WriteBytes(L.deviceDir + "/" + name, values[name]);
      } else if EndsWith(name, L.pluginSuffix) {
        fs.WriteBytes(L.pluginDir + "/" + name, values[name]);
      }
      i := i + 1;
    }
    assert keys[..i] == keys;
  }

  /**
   * loadSettingsFromFile. The archive is refused, with nothing touched, when it
   * holds no marker; otherwise the current settings are dropped and every
   * routed blob is written, in the order its name first appeared.
   */
  method LoadSettingsFromFile(fs: FileSystem, L: Layout, archive: Archive) returns (ok: bool)
    modifies fs
    ensures ok <==> MarkerName in Unpacked(archive).values
    ensures !ok ==> fs.files == old(fs.files)
    ensures ok ==> fs.files == Restored(old(fs.files), L, archive)
  {
    var files := Unpack(archive);
    if MarkerName !in files.values {
      return false;
    }
    RestoredIs(old(fs.files), L, archive, files);
    DropSettings(fs, L);
    WriteRouted(fs, L, files.keys, files.values);
    ok := true;
  }
}
