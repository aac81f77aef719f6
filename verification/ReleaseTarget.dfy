/** The state a deployment changes, and what a release makes of it:
    scripts/deploy-server.sh, lines 384-423. */
module ReleaseTarget {
  import opened Text
  import opened Selectors

  /** A directory: the contents of its files by path. */
  type Tree = map<string, string>

  /** Top-level directories of the target, its revision file, and the Supervisor
      configuration directory by process name. */
  datatype Target = Target(dirs: map<string, Tree>, revision: Option<string>, confs: map<string, string>)

  /** What the build directory holds. */
  datatype Build = Build(bin: map<string, string>, assets: map<string, Tree>, revision: string)

  datatype Backup = Backup(dirs: map<string, Tree>, revision: Option<string>)

  const ASSETS := ["config", "i18n", "public", "template"]
  const SAVED := ["bin", "config", "i18n", "public", "template"]

  function Artifacts(service: string): seq<string> {
    if service == PARTYSTAR then ["http", "rpc", "cmd"] else ["room_http", "room_rpc", "room_cmd"]
  }

  /** The temporary name of install_file_atomically; `pid` is the shell's. */
  function TemporaryName(name: string, pid: string): string {
    name + ".deploy." + pid
  }

  function FullBackup(dirs: map<string, Tree>, revision: Option<string>): Backup {
    Backup(map name | name in dirs && name in SAVED :: dirs[name], revision)
  }

  /** One artifact copied next to its target and renamed over it. */
  function WithArtifact(bin: Tree, name: string, content: string, pid: string): Tree {
    (bin - {TemporaryName(name, pid)})[name := content]
  }

  function WithArtifacts(bin: Tree, names: seq<string>, b: Build, pid: string): Tree
    requires forall i :: 0 <= i < |names| ==> names[i] in b.bin
  {
    if names == [] then bin
    else
      var n := |names| - 1;
      WithArtifact(WithArtifacts(bin, names[..n], b, pid), names[n], b.bin[names[n]], pid)
  }

  function TreeAt(dirs: map<string, Tree>, name: string): Tree {
    if name in dirs then dirs[name] else map[]
  }

  /** Asset directories are merged into the target. */
  function WithAssets(dirs: map<string, Tree>, names: seq<string>, b: Build): map<string, Tree> {
    if names == [] then dirs
    else
      var n := |names| - 1;
      var before := WithAssets(dirs, names[..n], b);
      if names[n] in b.assets then before[names[n] := TreeAt(before, names[n]) + b.assets[names[n]]] else before
  }

  predicate Complete(service: string, b: Build) {
    forall i :: 0 <= i < |Artifacts(service)| ==> Artifacts(service)[i] in b.bin
  }

  /** Directories and revision after a complete installation. */
  function ReleasedDirs(dirs: map<string, Tree>, service: string, b: Build, pid: string): map<string, Tree>
    requires Complete(service, b) && "bin" in dirs
  {
    WithAssets(dirs["bin" := WithArtifacts(dirs["bin"], Artifacts(service), b, pid)], ASSETS, b)
  }

  /* What a release means for every single file */

  lemma {:induction false} AssetsAreMerged(dirs: map<string, Tree>, names: seq<string>, b: Build, name: string)
    requires forall i, j :: 0 <= i < j < |names| ==> names[i] != names[j]
    ensures WithAssets(dirs, names, b).Keys >= dirs.Keys
    ensures name in names && name in b.assets ==>
        name in WithAssets(dirs, names, b)
        && WithAssets(dirs, names, b)[name] == TreeAt(dirs, name) + b.assets[name]
    ensures !(name in names && name in b.assets) ==>
        (name in WithAssets(dirs, names, b) <==> name in dirs)
        && TreeAt(WithAssets(dirs, names, b), name) == TreeAt(dirs, name)
    decreases |names|
  {
    if names != [] {
      var n := |names| - 1;
      assert names == names[..n] + [names[n]];
      AssetsAreMerged(dirs, names[..n], b, name);
      assert names[n] !in names[..n];
    }
  }

  lemma {:induction false} ArtifactsAreInstalled(bin: Tree, names: seq<string>, b: Build, pid: string, path: string)
    requires path in names
    requires forall i, j :: 0 <= i < j < |names| ==> names[i] != names[j]
    requires forall i :: 0 <= i < |names| ==> names[i] in b.bin
    requires forall i, j :: 0 <= i < |names| && 0 <= j < |names| ==> names[i] != TemporaryName(names[j], pid)
    ensures path in WithArtifacts(bin, names, b, pid) && WithArtifacts(bin, names, b, pid)[path] == b.bin[path]
    decreases |names|
  {
    var n := |names| - 1;
    var before := WithArtifacts(bin, names[..n], b, pid);
    if path != names[n] {
      var i :| 0 <= i < |names| && names[i] == path;
      assert names[..n][i] == path && path != TemporaryName(names[n], pid);
      ArtifactsAreInstalled(bin, names[..n], b, pid, path);
    }
  }

  /** Everything else in `bin` but the temporary files is kept. */
  lemma {:induction false} OtherFilesAreKept(bin: Tree, names: seq<string>, b: Build, pid: string, path: string)
    requires forall i :: 0 <= i < |names| ==>
        names[i] in b.bin && path != names[i] && path != TemporaryName(names[i], pid)
    ensures path in WithArtifacts(bin, names, b, pid) <==> path in bin
    ensures path in bin ==> WithArtifacts(bin, names, b, pid)[path] == bin[path]
    decreases |names|
  {
    if names != [] {
      OtherFilesAreKept(bin, names[..|names| - 1], b, pid, path);
    }
  }

  lemma ArtifactNames(service: string, pid: string)
    ensures |Artifacts(service)| == 3
    ensures forall i, j :: 0 <= i < j < |Artifacts(service)| ==> Artifacts(service)[i] != Artifacts(service)[j]
    ensures forall i, j :: 0 <= i < |Artifacts(service)| && 0 <= j < |Artifacts(service)| ==>
        Artifacts(service)[i] != TemporaryName(Artifacts(service)[j], pid)
  {
    var names := Artifacts(service);
    forall i, j | 0 <= i < |names| && 0 <= j < |names| ensures names[i] != TemporaryName(names[j], pid) {
      var t := TemporaryName(names[j], pid);
      assert t[|names[j]|] == '.';
      assert forall k :: 0 <= k < |names[i]| ==> names[i][k] != '.';
    }
    if service == PARTYSTAR {
      assert |names[0]| != |names[1]| && names[1][0] != names[2][0];
    } else {
      assert |names[0]| != |names[1]| && |names[0]| != |names[2]| && names[1][5] != names[2][5];
    }
  }

  /** A file of `bin` that a release leaves alone. */
  predicate Untouched(service: string, pid: string, path: string) {
    forall i :: 0 <= i < |Artifacts(service)| ==>
      path != Artifacts(service)[i] && path != TemporaryName(Artifacts(service)[i], pid)
  }

  lemma BinOfRelease(dirs: map<string, Tree>, service: string, b: Build, pid: string)
    requires Complete(service, b) && "bin" in dirs
    ensures "bin" in ReleasedDirs(dirs, service, b, pid)
    ensures ReleasedDirs(dirs, service, b, pid)["bin"] == WithArtifacts(dirs["bin"], Artifacts(service), b, pid)
  {
    AssetNames();
    var mid := dirs["bin" := WithArtifacts(dirs["bin"], Artifacts(service), b, pid)];
    AssetsAreMerged(mid, ASSETS, b, "bin");
  }

  /** A release, file by file: every artifact is the built one, and the other files
      of `bin` keep their contents. */
  lemma ReleaseByFile(dirs: map<string, Tree>, service: string, b: Build, pid: string, path: string)
    requires Complete(service, b) && "bin" in dirs
    ensures "bin" in ReleasedDirs(dirs, service, b, pid)
    ensures path in Artifacts(service) ==>
        path in ReleasedDirs(dirs, service, b, pid)["bin"]
        && ReleasedDirs(dirs, service, b, pid)["bin"][path] == b.bin[path]
    ensures Untouched(service, pid, path) ==>
        (path in ReleasedDirs(dirs, service, b, pid)["bin"] <==> path in dirs["bin"])
        && (path in dirs["bin"] ==> ReleasedDirs(dirs, service, b, pid)["bin"][path] == dirs["bin"][path])
  {
    BinOfRelease(dirs, service, b, pid);
    ArtifactNames(service, pid);
    if path in Artifacts(service) {
      ArtifactsAreInstalled(dirs["bin"], Artifacts(service), b, pid, path);
    }
    if Untouched(service, pid, path) {
      OtherFilesAreKept(dirs["bin"], Artifacts(service), b, pid, path);
    }
  }

  /** A release, directory by directory: built assets replace or join what was
      there, and everything else is untouched. */
  lemma ReleaseByDirectory(dirs: map<string, Tree>, service: string, b: Build, pid: string, name: string)
    requires Complete(service, b) && "bin" in dirs && name != "bin"
    ensures name in ASSETS && name in b.assets ==>
        name in ReleasedDirs(dirs, service, b, pid)
        && ReleasedDirs(dirs, service, b, pid)[name] == TreeAt(dirs, name) + b.assets[name]
    ensures !(name in ASSETS && name in b.assets) ==>
        (name in ReleasedDirs(dirs, service, b, pid) <==> name in dirs)
        && (name in dirs ==> ReleasedDirs(dirs, service, b, pid)[name] == dirs[name])
  {
    AssetNames();
    var mid := dirs["bin" := WithArtifacts(dirs["bin"], Artifacts(service), b, pid)];
    AssetsAreMerged(mid, ASSETS, b, name);
  }

  lemma AssetNames()
    ensures forall i, j :: 0 <= i < j < |ASSETS| ==> ASSETS[i] != ASSETS[j]
    ensures "bin" !in ASSETS
    ensures forall name :: name in SAVED <==> name == "bin" || name in ASSETS
  {
    assert |"config"| == 6 && |"i18n"| == 4 && |"public"| == 6 && |"template"| == 8 && |"bin"| == 3;
    assert "config"[0] != "public"[0];
    assert SAVED == ["bin"] + ASSETS;
  }

  /* By name */

  /** These files of the build are in `bin`. */
  ghost predicate Holds(bin: Tree, b: Build, files: set<string>) {
    forall x :: x in files ==> x in b.bin && x in bin && bin[x] == b.bin[x]
  }

  /** The artifacts of each service are in `bin`, as they were built. */
  ghost predicate BuiltFiles(service: string, dirs: map<string, Tree>, b: Build) {
    && "bin" in dirs
    && (service == "psl-be-partystar" ==> Holds(dirs["bin"], b, {"http", "rpc", "cmd"}))
    && (service == "psl-be-room" ==> Holds(dirs["bin"], b, {"room_http", "room_rpc", "room_cmd"}))
  }

  /** The build has what a release of the service needs. */
  lemma CompleteExactly(service: string, b: Build)
    requires ValidService(service)
    ensures Complete(service, b) <==>
        (service == "psl-be-partystar" && {"http", "rpc", "cmd"} <= b.bin.Keys)
        || (service == "psl-be-room" && {"room_http", "room_rpc", "room_cmd"} <= b.bin.Keys)
  {
    assert |"psl-be-partystar"| == 16 && |"psl-be-room"| == 11;
    var names := Artifacts(service);
    assert |names| == 3;
    assert Complete(service, b) <==> names[0] in b.bin && names[1] in b.bin && names[2] in b.bin;
  }

  /** After a release they are in place. */
  lemma FilesOfRelease(dirs: map<string, Tree>, service: string, b: Build, pid: string)
    requires Complete(service, b) && "bin" in dirs && ValidService(service)
    ensures BuiltFiles(service, ReleasedDirs(dirs, service, b, pid), b)
  {
    assert |"psl-be-partystar"| == 16 && |"psl-be-room"| == 11;
    var names := Artifacts(service);
    assert names[0] in names && names[1] in names && names[2] in names;
    ReleaseByFile(dirs, service, b, pid, names[0]);
    ReleaseByFile(dirs, service, b, pid, names[1]);
    ReleaseByFile(dirs, service, b, pid, names[2]);
  }

  /** Nothing else changes in `bin` but temporary names. */
  lemma OtherFilesOfRelease(dirs: map<string, Tree>, service: string, b: Build, pid: string, path: string)
    requires Complete(service, b) && "bin" in dirs && ValidService(service)
    requires path !in {"http", "rpc", "cmd", "room_http", "room_rpc", "room_cmd"}
    requires forall x :: x in {"http", "rpc", "cmd", "room_http", "room_rpc", "room_cmd"} ==>
        path != x + ".deploy." + pid
    ensures "bin" in ReleasedDirs(dirs, service, b, pid)
    ensures Same(ReleasedDirs(dirs, service, b, pid)["bin"], dirs["bin"], path)
  {
    ReleaseByFile(dirs, service, b, pid, path);
    var names := Artifacts(service);
    forall i | 0 <= i < |names| ensures path != names[i] && path != TemporaryName(names[i], pid) {
      assert names[i] in {"http", "rpc", "cmd", "room_http", "room_rpc", "room_cmd"};
    }
  }

  /** The built assets join four directories, and the others stay as they are. */
  lemma AssetsOfRelease(dirs: map<string, Tree>, service: string, b: Build, pid: string, name: string)
    requires Complete(service, b) && "bin" in dirs && name != "bin"
    ensures name in {"config", "i18n", "public", "template"} && name in b.assets ==>
        name in ReleasedDirs(dirs, service, b, pid)
        && ReleasedDirs(dirs, service, b, pid)[name] == (if name in dirs then dirs[name] else map[]) + b.assets[name]
    ensures name !in {"config", "i18n", "public", "template"} || name !in b.assets ==>
        Same(ReleasedDirs(dirs, service, b, pid), dirs, name)
  {
    ReleaseByDirectory(dirs, service, b, pid, name);
    assert name in ASSETS <==> name in {"config", "i18n", "public", "template"};
  }

  predicate Same<T(==)>(a: map<string, T>, b: map<string, T>, key: string) {
    (key in a <==> key in b) && (key in b ==> a[key] == b[key])
  }

  /** A backup has these directories, as far as they exist, and the revision. */
  lemma BackupHolds(dirs: map<string, Tree>, revision: Option<string>, name: string)
    ensures name in {"bin", "config", "i18n", "public", "template"} ==>
        Same(FullBackup(dirs, revision).dirs, dirs, name)
    ensures name !in {"bin", "config", "i18n", "public", "template"} ==> name !in FullBackup(dirs, revision).dirs
    ensures FullBackup(dirs, revision).revision == revision
  {
    assert name in SAVED <==> name in {"bin", "config", "i18n", "public", "template"};
  }

  /* Rollback */

  /** All that existed is as before; only new asset directories may be left. */
  ghost predicate Restored(before: Target, after: Target, b: Build) {
    && (forall name :: name in before.dirs ==> name in after.dirs && after.dirs[name] == before.dirs[name])
    && (forall name :: name in after.dirs && name !in before.dirs ==> name in ASSETS && name in b.assets)
    && after.revision == before.revision
    && after.confs == before.confs
  }

  /** The build brings an asset directory that the target does not have. */
  ghost predicate BringsNewAssets(before: Target, b: Build) {
    exists name :: name in ASSETS && name in b.assets && name !in before.dirs
  }
}
