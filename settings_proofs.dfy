/**
 * What the settings backup promises: a later archive entry replaces an earlier
 * one of the same name, every routed blob lands where the else-if chain sends
 * it, a restore without a config blob leaves no config file, and a dump
 * followed by a restore gives back the config file and every registry file.
 */
module SettingsProofs {
  import opened Wrappers
  import opened Files
  import opened Settings

  // ------------------------------------------------------------ unpacking

  /** Every entry name of the archive becomes a key of the unpacked map. */
  lemma {:induction false} NameKept(a: Archive, i: nat)
    requires i < |a|
    ensures a[i].name in Unpacked(a).values
    decreases |a|
  {
    if i < |a| - 1 {
      NameKept(a[..|a| - 1], i);
    }
  }

  /** The key of an entry no later entry repeats holds that entry's bytes: the last occurrence wins. */
  lemma {:induction false} LastOccurrenceWins(a: Archive, i: nat)
    requires i < |a|
    requires forall j :: i < j < |a| ==> a[j].name != a[i].name
    ensures a[i].name in Unpacked(a).values
    ensures Unpacked(a).values[a[i].name] == a[i].data
    decreases |a|
  {
    if i < |a| - 1 {
      LastOccurrenceWins(a[..|a| - 1], i);
    }
  }

  /** The index of the first entry named `k`, or |a| when there is none. */
  function FirstAt(a: Archive, k: string): (r: nat)
    ensures r <= |a|
    ensures r < |a| ==> a[r].name == k
    ensures forall q :: 0 <= q < r ==> a[q].name != k
  {
    if a == [] then 0
    else if a[0].name == k then 0
    else 1 + FirstAt(a[1..], k)
  }

  /** Appending an entry does not move the first occurrence of a name already present. */
  lemma {:induction false} FirstAtAppend(a: Archive, b: Blob, k: string)
    ensures FirstAt(a, k) < |a| ==> FirstAt(a + [b], k) == FirstAt(a, k)
    ensures FirstAt(a, k) == |a| && b.name == k ==> FirstAt(a + [b], k) == |a|
  {
    var a' := a + [b];
    assert forall q :: 0 <= q < |a| ==> a'[q] == a[q];
    assert a'[|a|] == b;
  }

  /** A name already unpacked keeps its first position when an entry is appended. */
  lemma {:induction false} KnownKeyStays(init: Archive, b: Blob, k: string)
    requires k in Unpacked(init).values
    ensures FirstAt(init + [b], k) == FirstAt(init, k) < |init|
  {
    var q := KeyFromEntry(init, k);
    FirstAtAppend(init, b, k);
  }

  /** A name first met in the appended entry is first found there. */
  lemma {:induction false} NewKeyLast(init: Archive, b: Blob)
    requires b.name !in Unpacked(init).values
    ensures FirstAt(init + [b], b.name) == |init|
  {
    forall q | 0 <= q < |init|
      ensures init[q].name != b.name
    {
      NameKept(init, q);
    }
    FirstAtAppend(init, b, b.name);
  }

  /**
   * The keys of the unpacked map, the order in which the restore writes them,
   * are in the order of each name's first entry in the archive.
   */
  lemma {:induction false} UnpackedKeysInFirstAppearanceOrder(a: Archive)
    ensures InFirstAppearanceOrder(a, Unpacked(a).keys)
    decreases |a|
  {
    if a == [] {
      assert Unpacked(a).keys == [];
    } else {
      var init, b := a[..|a| - 1], a[|a| - 1];
      assert a == init + [b];
      var m := Unpacked(init);
      UnpackedKeysInFirstAppearanceOrder(init);
      forall i | 0 <= i < |m.keys|
        ensures FirstAt(init + [b], m.keys[i]) == FirstAt(init, m.keys[i]) < |init|
      {
        KnownKeyStays(init, b, m.keys[i]);
      }
      if b.name !in m.values {
        NewKeyLast(init, b);
        OrderExtended(init, b, m.keys);
        assert Unpacked(a).keys == m.keys + [b.name];
      } else {
        OrderKept(init, b, m.keys);
        assert Unpacked(a).keys == m.keys;
      }
    }
  }

  /** Every key of the list first appears in the archive before the next one does. */
  predicate InFirstAppearanceOrder(a: Archive, keys: seq<string>)
  {
    forall i, j :: 0 <= i < j < |keys| ==> FirstAt(a, keys[i]) < FirstAt(a, keys[j]) < |a|
  }

  lemma {:induction false} OrderKept(init: Archive, b: Blob, keys: seq<string>)
    requires InFirstAppearanceOrder(init, keys)
    requires forall i :: 0 <= i < |keys| ==> FirstAt(init + [b], keys[i]) == FirstAt(init, keys[i]) < |init|
    ensures InFirstAppearanceOrder(init + [b], keys)
  {
  }

  lemma {:induction false} OrderExtended(init: Archive, b: Blob, keys: seq<string>)
    requires InFirstAppearanceOrder(init, keys)
    requires forall i :: 0 <= i < |keys| ==> FirstAt(init + [b], keys[i]) == FirstAt(init, keys[i]) < |init|
    requires FirstAt(init + [b], b.name) == |init|
    ensures InFirstAppearanceOrder(init + [b], keys + [b.name])
  {
    var keys' := keys + [b.name];
    forall i, j | 0 <= i < j < |keys'|
      ensures FirstAt(init + [b], keys'[i]) < FirstAt(init + [b], keys'[j]) < |init + [b]|
    {
      assert keys'[i] == keys[i];
      if j < |keys| {
        assert keys'[j] == keys[j];
      }
    }
  }

  /** A key comes from some entry of the archive. */
  lemma {:induction false} KeyFromEntry(a: Archive, k: string) returns (i: nat)
    requires k in Unpacked(a).values
    ensures i < |a| && a[i].name == k
    decreases |a|
  {
    if a[|a| - 1].name == k {
      i := |a| - 1;
    } else {
      i := KeyFromEntry(a[..|a| - 1], k);
    }
  }

  // ------------------------------------------------------------ routing

  lemma {:induction false} JoinStartsWith(dir: Path, name: string)
    ensures StartsWith(dir + "/" + name, dir + "/")
    ensures (dir + "/" + name)[|dir| + 1..] == name
  {
    assert (dir + "/" + name)[..|dir| + 1] == dir + "/";
  }

  /** Two prefixes of one string: the shorter is a prefix of the longer. */
  lemma {:induction false} PrefixesOfOne(s: string, x: string, y: string)
    requires StartsWith(s, x) && StartsWith(s, y)
    ensures StartsWith(x, y) || StartsWith(y, x)
  {
    if |y| <= |x| {
      assert x[..|y|] == s[..|y|];
    } else {
      assert y[..|x|] == s[..|x|];
    }
  }

  /** Two ends of one string: the shorter is an end of the longer. */
  lemma {:induction false} SuffixesOfOne(s: string, x: string, y: string)
    requires EndsWith(s, x) && EndsWith(s, y)
    ensures EndsWith(x, y) || EndsWith(y, x)
  {
    if |y| <= |x| {
      assert x[|x| - |y|..] == s[|s| - |y|..];
    } else {
      assert y[|y| - |x|..] == s[|s| - |x|..];
    }
  }

  /**
   * In a well-formed layout no two blob names are written to the same file:
   * the else-if chain never sends two names to one path.
   */
  lemma {:induction false} RouteInjective(L: Layout, k1: string, k2: string)
    requires WellFormed(L)
    requires Route(L, k1).Some? && Route(L, k1) == Route(L, k2)
    ensures k1 == k2
  {
    var t := Route(L, k1).value;
    var dev, plug := L.deviceDir + "/", L.pluginDir + "/";
    if k1 != ConfName {
      var d1 := if EndsWith(k1, L.deviceExt) then L.deviceDir else L.pluginDir;
      JoinStartsWith(d1, k1);
      if k2 != ConfName {
        var d2 := if EndsWith(k2, L.deviceExt) then L.deviceDir else L.pluginDir;
        JoinStartsWith(d2, k2);
        if d1 != d2 {
          PrefixesOfOne(t, d1 + "/", d2 + "/");
        }
      }
    } else if k2 != ConfName {
      var d2 := if EndsWith(k2, L.deviceExt) then L.deviceDir else L.pluginDir;
      JoinStartsWith(d2, k2);
    }
  }

  /** A blob whose name alone is sent to `t` leaves its bytes there after all the writes. */
  lemma {:induction false} ApplyWritesAt(base: map<Path, Bytes>, L: Layout, keys: seq<string>,
                                         values: map<string, Bytes>, k: string, t: Path)
    requires forall k' :: k' in keys ==> k' in values
    requires k in keys && Route(L, k) == Some(t)
    requires forall k' :: k' in keys && k' != k ==> Route(L, k') != Some(t)
    ensures t in ApplyWrites(base, L, keys, values)
    ensures ApplyWrites(base, L, keys, values)[t] == values[k]
    decreases |keys|
  {
    var init := keys[..|keys| - 1];
    if keys[|keys| - 1] != k {
      assert k in init;
      ApplyWritesAt(base, L, init, values, k, t);
    }
  }

  /** A file no blob is sent to keeps what it had before the writes. */
  lemma {:induction false} ApplyWritesElsewhere(base: map<Path, Bytes>, L: Layout, keys: seq<string>,
                                                values: map<string, Bytes>, t: Path)
    requires forall k :: k in keys ==> k in values
    requires forall k :: k in keys ==> Route(L, k) != Some(t)
    ensures t in ApplyWrites(base, L, keys, values) <==> t in base
    ensures t in base ==> ApplyWrites(base, L, keys, values)[t] == base[t]
    decreases |keys|
  {
    if keys != [] {
      ApplyWritesElsewhere(base, L, keys[..|keys| - 1], values, t);
    }
  }

  // ------------------------------------------------------------ restore

  /**
   * After a restore every routed blob is in its file: conf.json in conf.path,
   * a name with dm.EXTENSION in dm.path, else one with pm.SUFFIX in pm.directory.
   */
  lemma {:induction false} RestoredAt(files: map<Path, Bytes>, L: Layout, a: Archive, k: string)
    requires WellFormed(L)
    requires k in Unpacked(a).values && Route(L, k).Some?
    ensures Route(L, k).value in Restored(files, L, a)
    ensures Restored(files, L, a)[Route(L, k).value] == Unpacked(a).values[k]
  {
    var m := Unpacked(a);
    var t := Route(L, k).value;
    forall k' | k' in m.keys && k' != k
      ensures Route(L, k') != Some(t)
    {
      if Route(L, k') == Some(t) {
        RouteInjective(L, k, k');
      }
    }
    ApplyWritesAt(Dropped(files, L), L, m.keys, m.values, k, t);
  }

  /**
   * A file no blob is routed to is as dropSettings left it: deleted if it was
   * the config file or a registry file, untouched otherwise. The marker and
   * every name matching no rule are ignored.
   */
  lemma {:induction false} RestoredElsewhere(files: map<Path, Bytes>, L: Layout, a: Archive, t: Path)
    requires forall k :: k in Unpacked(a).values ==> Route(L, k) != Some(t)
    ensures t in Restored(files, L, a) <==> t in files && !Doomed(L, t)
    ensures t in Restored(files, L, a) ==> Restored(files, L, a)[t] == files[t]
  {
    var m := Unpacked(a);
    ApplyWritesElsewhere(Dropped(files, L), L, m.keys, m.values, t);
  }

  /** A restore from an archive without a conf.json blob leaves no config file behind. */
  lemma {:induction false} RestoreWithoutConfigDeletesIt(files: map<Path, Bytes>, L: Layout, a: Archive)
    requires WellFormed(L)
    requires ConfName !in Unpacked(a).values
    ensures L.confPath !in Restored(files, L, a)
  {
    var m := Unpacked(a);
    forall k | k in m.values
      ensures Route(L, k) != Some(L.confPath)
    {
      if Route(L, k) == Some(L.confPath) {
        RouteInjective(L, k, ConfName);
      }
    }
    RestoredElsewhere(files, L, a, L.confPath);
  }

  // ------------------------------------------------------------ round trip

  /** The files a dump takes: the config file and everything directly in the two directories. */
  ghost predicate Backed(L: Layout, p: Path)
  {
    p == L.confPath || InDir(p, L.deviceDir) || InDir(p, L.pluginDir)
  }

  /** No two backed-up files share a base name (they would collide in the archive). */
  ghost predicate DistinctBaseNames(files: map<Path, Bytes>, L: Layout)
  {
    forall p, q :: p in files && q in files && Backed(L, p) && Backed(L, q) && p != q ==> BaseName(p) != BaseName(q)
  }

  lemma {:induction false} DistinctConcat(a: seq<Path>, b: seq<Path>)
    requires Distinct(a) && Distinct(b)
    requires forall x :: x in a ==> x !in b
    ensures Distinct(a + b)
  {
    forall i, j | 0 <= i < j < |a + b|
      ensures (a + b)[i] != (a + b)[j]
    {
      if i < |a| && |a| <= j {
        assert (a + b)[i] in a && (a + b)[j] in b;
      }
    }
  }

  /** The files of one dump, in archive order after the marker, each once. */
  lemma {:induction false} DumpSourcesDistinct(files: map<Path, Bytes>, L: Layout, devices: seq<Path>, plugins: seq<Path>)
    requires WellFormed(L)
    requires IsListing(files, L.deviceDir, devices) && IsListing(files, L.pluginDir, plugins)
    ensures Distinct([L.confPath] + devices + plugins)
  {
    forall x | x in devices
      ensures x != L.confPath
    {
      assert StartsWith(x, L.deviceDir + "/");
    }
    DistinctConcat([L.confPath], devices);
    forall x | x in [L.confPath] + devices
      ensures x !in plugins
    {
      if x in plugins && x != L.confPath {
        PrefixesOfOne(x, L.deviceDir + "/", L.pluginDir + "/");
      }
    }
    DistinctConcat([L.confPath] + devices, plugins);
  }

  /** Every entry of FileBlobs, at once. */
  lemma {:induction false} FileBlobsShape(files: map<Path, Bytes>, paths: seq<Path>)
    requires forall p :: p in paths ==> p in files
    ensures |FileBlobs(files, paths)| == |paths|
    ensures forall i :: 0 <= i < |paths| ==> FileBlobs(files, paths)[i] == Blob(BaseName(paths[i]), files[paths[i]])
  {
    if paths != [] {
      FileBlobsAt(files, paths, 0);
    }
    forall i | 0 <= i < |paths|
      ensures FileBlobs(files, paths)[i] == Blob(BaseName(paths[i]), files[paths[i]])
    {
      FileBlobsAt(files, paths, i);
    }
  }

  /** Behind a first entry, an entry whose name no later entry repeats is unpacked with its data. */
  lemma {:induction false} BlobsLastWins(head: Blob, blobs: Archive, idx: nat)
    requires idx < |blobs|
    requires forall j :: idx < j < |blobs| ==> blobs[j].name != blobs[idx].name
    ensures blobs[idx].name in Unpacked([head] + blobs).values
    ensures Unpacked([head] + blobs).values[blobs[idx].name] == blobs[idx].data
  {
    var A := [head] + blobs;
    assert A[1 + idx] == blobs[idx];
    assert forall j :: 1 + idx < j < |A| ==> A[j] == blobs[j - 1];
    LastOccurrenceWins(A, 1 + idx);
  }

  /** Distinct backed-up files have distinct base names. */
  lemma {:induction false} BackedNamesDiffer(files: map<Path, Bytes>, L: Layout, S: seq<Path>, idx: nat)
    requires Distinct(S) && idx < |S|
    requires forall q :: q in S ==> q in files && Backed(L, q)
    requires DistinctBaseNames(files, L)
    ensures forall j :: idx < j < |S| ==> BaseName(S[j]) != BaseName(S[idx])
  {
    forall j | idx < j < |S|
      ensures BaseName(S[j]) != BaseName(S[idx])
    {
      assert S[j] in S && S[idx] in S;
    }
  }

  /** A dumped file is unpacked to its own bytes. */
  lemma {:induction false} DumpedFileUnpacked(files: map<Path, Bytes>, L: Layout, stamp: Bytes,
                           devices: seq<Path>, plugins: seq<Path>, idx: nat)
    requires WellFormed(L) && L.confPath in files
    requires IsListing(files, L.deviceDir, devices) && IsListing(files, L.pluginDir, plugins)
    requires DistinctBaseNames(files, L)
    requires idx < 1 + |devices| + |plugins|
    ensures var p := ([L.confPath] + devices + plugins)[idx];
      && BaseName(p) in Unpacked(DumpArchive(files, L, stamp, devices, plugins)).values
      && Unpacked(DumpArchive(files, L, stamp, devices, plugins)).values[BaseName(p)] == files[p]
  {
    var S := [L.confPath] + devices + plugins;
    assert forall q :: q in S ==> q in files && Backed(L, q);
    DumpSourcesDistinct(files, L, devices, plugins);
    BackedNamesDiffer(files, L, S, idx);
    var blobs := FileBlobs(files, S);
    FileBlobsShape(files, S);
    assert forall j :: idx < j < |blobs| ==> blobs[j].name == BaseName(S[j]);
    BlobsLastWins(Blob(MarkerName, stamp), blobs, idx);
  }

  /** A device file's base name is routed back to it. */
  lemma {:induction false} DeviceFileRoutedHome(L: Layout, p: Path)
    requires WellFormed(L)
    requires InDir(p, L.deviceDir) && EndsWith(p, L.deviceExt) && BaseName(p) != ConfName
    ensures Route(L, BaseName(p)) == Some(p)
  {
    BaseNameInDir(p, L.deviceDir);
    EndsWithBaseName(p, L.deviceDir, L.deviceExt);
    assert p == L.deviceDir + "/" + BaseName(p);
  }

  /** A plugin file's base name is routed back to it, unless it also ends with the device extension. */
  lemma {:induction false} PluginFileRoutedHome(L: Layout, p: Path)
    requires WellFormed(L) && !EndsWith(L.deviceExt, L.pluginSuffix) && !EndsWith(L.pluginSuffix, L.deviceExt)
    requires InDir(p, L.pluginDir) && EndsWith(p, L.pluginSuffix) && BaseName(p) != ConfName
    ensures Route(L, BaseName(p)) == Some(p)
  {
    var name := BaseName(p);
    BaseNameInDir(p, L.pluginDir);
    EndsWithBaseName(p, L.pluginDir, L.pluginSuffix);
    assert p == L.pluginDir + "/" + name;
    if EndsWith(name, L.deviceExt) {
      SuffixesOfOne(name, L.deviceExt, L.pluginSuffix);
    }
  }

  /** A backed-up config or registry file's base name is routed back to that same file. */
  lemma {:induction false} RoutedHome(files: map<Path, Bytes>, L: Layout, p: Path)
    requires WellFormed(L) && L.confPath in files && BaseName(L.confPath) == ConfName
    requires !EndsWith(L.deviceExt, L.pluginSuffix) && !EndsWith(L.pluginSuffix, L.deviceExt)
    requires DistinctBaseNames(files, L)
    requires p in files && (p == L.confPath || Registry(L, p))
    ensures Route(L, BaseName(p)) == Some(p)
  {
    if p != L.confPath {
      assert Backed(L, p) && Backed(L, L.confPath);
      assert BaseName(p) != ConfName;
      if InDir(p, L.deviceDir) && EndsWith(p, L.deviceExt) {
        DeviceFileRoutedHome(L, p);
      } else {
        PluginFileRoutedHome(L, p);
      }
    }
  }

  /**
   * Dump followed by restore: the restore accepts the archive, and the config
   * file and every registry file come back byte for byte, provided the layout
   * is well formed, the config file is named conf.json, the two suffixes do
   * not end one another, and the backed-up files have distinct base names.
   */
  lemma {:induction false} RoundTrip(files: map<Path, Bytes>, L: Layout, stamp: Bytes, devices: seq<Path>, plugins: seq<Path>)
    requires WellFormed(L) && L.confPath in files && BaseName(L.confPath) == ConfName
    requires !EndsWith(L.deviceExt, L.pluginSuffix) && !EndsWith(L.pluginSuffix, L.deviceExt)
    requires IsListing(files, L.deviceDir, devices) && IsListing(files, L.pluginDir, plugins)
    requires DistinctBaseNames(files, L)
    ensures MarkerName in Unpacked(DumpArchive(files, L, stamp, devices, plugins)).values
    ensures var restored := Restored(files, L, DumpArchive(files, L, stamp, devices, plugins));
      forall p :: p in files && (p == L.confPath || Registry(L, p)) ==> p in restored && restored[p] == files[p]
  {
    var A := DumpArchive(files, L, stamp, devices, plugins);
    NameKept(A, 0);
    var S := [L.confPath] + devices + plugins;
    forall p | p in files && (p == L.confPath || Registry(L, p))
      ensures p in Restored(files, L, A) && Restored(files, L, A)[p] == files[p]
    {
      assert p in S;
      var idx :| 0 <= idx < |S| && S[idx] == p;
      DumpedFileUnpacked(files, L, stamp, devices, plugins, idx);
      RoutedHome(files, L, p);
      RestoredAt(files, L, A, BaseName(p));
    }
  }

  /**
   * The layout App.init sets up (conf.json, devices and plugins under one data
   * directory) is well formed and names its config file conf.json.
   */
  lemma {:induction false} AppLayoutWellFormed(dir: Path, ext: string, suffix: string)
    requires NoSlash(ext) && NoSlash(suffix)
    ensures var L := Layout(dir + "/conf.json", dir + "/devices", ext, dir + "/plugins", suffix);
      WellFormed(L) && BaseName(L.confPath) == ConfName
  {
    var n := |dir| + 1;
    var conf, dev, plug := dir + "/conf.json", (dir + "/devices") + "/", (dir + "/plugins") + "/";
    assert conf[n] == 'c' && dev[n] == 'd' && plug[n] == 'p';
    JoinStartsWith(dir, "conf.json");
    assert InDir(conf, dir);
    BaseNameInDir(conf, dir);
  }
}
