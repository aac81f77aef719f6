/** The transaction of scripts/deploy-server.sh: backup, install, register,
    restart, commit, and the rollback of its exit trap. */
module ReleaseScript {
  import opened Text
  import opened Selectors
  import opened ReleaseTarget
  import DeployArguments
  import Supervision
  import RestartLog
  import RunReport

  /** How one command ends. A failing command may leave any tree or file at its
      destination. */
  datatype Fault = Fine | Broken(tree: Tree, file: Option<string>)

  /** Everything the script meets but does not control. Commands of the
      transaction are numbered; `faults` decides how each of them ends. */
  datatype World = World(
    onTestHost: bool,
    lockFree: bool,
    sourceOk: bool,
    buildOk: bool,
    sourceNoise: seq<string>,
    noise: seq<string>,
    installNoise: seq<string>,
    expired: seq<string>,
    pid: string,
    product: Build,
    faults: nat -> Fault,
    names: seq<string>,
    registered: string -> bool,
    config: string -> Option<string>,
    hookPresent: bool,
    supervisor: Supervision.Supervisor)

  /** How far a deployment got. */
  datatype Phase = Early | BackingUp | Installing | Registering | Restarting | Committed

  /** Every process that Supervisor does not know can be registered. */
  ghost predicate AllRegistrable(service: string, processes: seq<string>, confs: map<string, string>, w: World) {
    forall p :: p in processes && !w.registered(p) ==> Registrable(service, p, confs, w)
  }

  /** The processes render_new_supervisor_config supports. */
  predicate Renderable(service: string, p: string) {
    if service == PARTYSTAR then HasPrefix(p, "go.ps_cmd.")
    else p == "room.http" || p == "room.rpc" || HasPrefix(p, "room.cmd.")
  }

  /** No command of the transaction fails. */
  ghost predicate Smooth(w: World) {
    forall n: nat :: FaultAt(w, n).Fine?
  }

  function FaultAt(w: World, n: nat): Fault {
    w.faults(n)
  }

  /** What render_new_supervisor_config dies of. */
  function ConfigProblem(service: string, p: string, confs: map<string, string>, w: World): (problem: Option<string>)
    ensures problem.None? <==> Registrable(service, p, confs, w)
  {
    if !Renderable(service, p) then Some("automatic Supervisor registration is not supported for: " + p)
    else if w.config(p).None? then Some("new process has no matching repository Supervisor config: " + p)
    else if p in confs then Some("refusing to overwrite unregistered Supervisor config: " + CONF_DIR + p + ".conf")
    else None
  }

  predicate HookReady(service: string, w: World) {
    service == PARTYSTAR ==> w.hookPresent
  }

  /** A configuration can be made for a process that Supervisor does not know. */
  predicate Registrable(service: string, p: string, confs: map<string, string>, w: World) {
    Renderable(service, p) && w.config(p).Some? && p !in confs
  }

  /** The configurations that a registration has added so far. */
  ghost predicate OnlyAdded(before: map<string, string>, now: map<string, string>, newConfigs: seq<string>) {
    && (forall p :: p in before ==> p in now && now[p] == before[p])
    && (forall p :: p in now && p !in before ==> p in newConfigs)
    && (forall p :: p in newConfigs ==> p !in before)
  }

  /** What installation and registration may have changed since `before`. */
  ghost predicate Changed(before: Target, now: Target, newConfigs: seq<string>, b: Build) {
    && before.dirs.Keys <= now.dirs.Keys
    && (forall x :: x in now.dirs && x !in before.dirs ==> x in ASSETS && x in b.assets)
    && (forall x :: x in before.dirs && x != "bin" && x !in ASSETS ==> now.dirs[x] == before.dirs[x])
    && OnlyAdded(before.confs, now.confs, newConfigs)
  }

  /** Everything since `before` can still be undone by Rollback. */
  ghost predicate Reversible(before: Target, now: Target, backup: Option<Backup>, newConfigs: seq<string>, b: Build) {
    backup == Some(FullBackup(before.dirs, before.revision)) && Changed(before, now, newConfigs, b)
  }

  const HOOK := "/home/ecs-user/sh/consul.init.sh"
  const CONF_DIR := "/home/ecs-user/.local/etc/supervisor/conf.d/"

  const PHASE_MESSAGE := "phase=deploying"

  class Host {
    var dirs: map<string, Tree>
    var revision: Option<string>
    var confs: map<string, string>
    var backup: Option<Backup>
    var deployed: bool
    var newConfigs: seq<string>
    var commands: nat
    var out: seq<string>
    var source: Option<string>

    function View(): Target
      reads this
    {
      Target(dirs, revision, confs)
    }

    /** The transaction has not begun. */
    predicate Idle()
      reads this
    {
      backup.None? && !deployed && newConfigs == []
    }

    /** The script's globals when it starts; `source` is the revision file of the
        build directory. */
    predicate Fresh()
      reads this
    {
      Idle() && source.None?
    }

    method Command(w: World) returns (f: Fault)
      modifies this`commands
      ensures Smooth(w) ==> f.Fine?
    {
      f := FaultAt(w, commands);
      commands := commands + 1;
    }

    method Print(line: string)
      modifies this`out
      ensures out == old(out) + [line]
    {
      out := out + [line];
    }

    /** die, whose exit follows where it is called */
    method Die(reason: string)
      modifies this`out
      ensures out == old(out) + [RunReport.Fatal(reason)]
    {
      Print(RunReport.Fatal(reason));
    }

    /** prepare_backup */
    method PrepareBackup(w: World) returns (ok: bool)
      modifies this`backup, this`commands, this`out
      ensures ok ==> backup == Some(FullBackup(dirs, revision))
      ensures Smooth(w) ==> ok
      ensures out == old(out) + (if ok then [BackupLine()] else [])
    {
      assert out == out + [];
      var f := Command(w);
      if f.Broken? {
        return false;
      }
      var copies: map<string, Tree> := map[];
      backup := Some(Backup(copies, None));
      for i := 0 to |SAVED|
        invariant out == old(out)
        invariant copies == map name | name in dirs && name in SAVED[..i] :: dirs[name]
      {
        var name := SAVED[i];
        assert SAVED[..i + 1] == SAVED[..i] + [name];
        if name in dirs {
          f := Command(w);
          if f.Broken? {
            backup := Some(Backup(copies[name := f.tree], None));
            return false;
          }
          copies := copies[name := dirs[name]];
        }
        backup := Some(Backup(copies, None));
      }
      assert SAVED[..|SAVED|] == SAVED;
      if revision.Some? {
        f := Command(w);
        if f.Broken? {
          backup := Some(Backup(copies, f.file));
          return false;
        }
      }
      backup := Some(Backup(copies, revision));
      Print(BackupLine());
      ok := true;
    }

    /** install_file_atomically: cp -a, then mv -f, within the bin directory. */
    method InstallFile(name: string, content: string, w: World) returns (ok: bool)
      modifies this`dirs, this`commands
      ensures dirs.Keys == old(dirs).Keys
      ensures forall x :: x in dirs && x != "bin" ==> dirs[x] == old(dirs)[x]
      ensures ok ==> "bin" in dirs && dirs == old(dirs)["bin" := WithArtifact(old(dirs)["bin"], name, content, w.pid)]
      ensures Smooth(w) && "bin" in old(dirs) ==> ok
    {
      if "bin" !in dirs {
        return false;
      }
      var temporary := TemporaryName(name, w.pid);
      var f := Command(w);
      if f.Broken? {
        dirs := dirs["bin" := f.tree];
        return false;
      }
      dirs := dirs["bin" := dirs["bin"][temporary := content]];
      f := Command(w);
      if f.Broken? {
        dirs := dirs["bin" := f.tree];
        return false;
      }
      dirs := dirs["bin" := (dirs["bin"] - {temporary})[name := content]];
      assert dirs["bin"] == WithArtifact(old(dirs)["bin"], name, content, w.pid);
      ok := true;
    }

    /** The artifact loop of install_release. */
    method InstallArtifacts(service: string, w: World) returns (ok: bool)
      modifies this`dirs, this`commands, this`out
      ensures old(out) <= out && (ok ==> out == old(out))
      ensures dirs.Keys == old(dirs).Keys
      ensures forall x :: x in dirs && x != "bin" ==> dirs[x] == old(dirs)[x]
      ensures ok ==> Complete(service, w.product) && "bin" in dirs
      ensures ok ==> dirs["bin"] == WithArtifacts(old(dirs)["bin"], Artifacts(service), w.product, w.pid)
      ensures Smooth(w) && Complete(service, w.product) && "bin" in old(dirs) ==> ok
    {
      var names := Artifacts(service);
      for i := 0 to |names|
        invariant out == old(out) && dirs.Keys == old(dirs).Keys
        invariant forall x :: x in dirs && x != "bin" ==> dirs[x] == old(dirs)[x]
        invariant forall j :: 0 <= j < i ==> names[j] in w.product.bin
        invariant i > 0 ==> "bin" in dirs
        invariant "bin" in dirs ==> dirs["bin"] == WithArtifacts(old(dirs)["bin"], names[..i], w.product, w.pid)
      {
        if names[i] !in w.product.bin {
          Die("missing build artifact: bin/" + names[i]);
          return false;
        }
        var installed := InstallFile(names[i], w.product.bin[names[i]], w);
        if !installed {
          return false;
        }
        assert names[..i + 1][..i] == names[..i];
      }
      assert names[..|names|] == names;
      ok := true;
    }

    /** The asset loop of install_release. */
    method InstallAssets(w: World) returns (ok: bool)
      modifies this`dirs, this`commands
      ensures old(dirs).Keys <= dirs.Keys
      ensures forall x :: x in dirs && x !in old(dirs) ==> x in ASSETS && x in w.product.assets
      ensures forall x :: x in old(dirs) && !(x in ASSETS && x in w.product.assets) ==> dirs[x] == old(dirs)[x]
      ensures ok ==> dirs == WithAssets(old(dirs), ASSETS, w.product)
      ensures Smooth(w) ==> ok
    {
      for i := 0 to |ASSETS|
        invariant old(dirs).Keys <= dirs.Keys
        invariant forall x :: x in dirs && x !in old(dirs) ==> x in ASSETS && x in w.product.assets
        invariant forall x :: x in old(dirs) && !(x in ASSETS && x in w.product.assets) ==> dirs[x] == old(dirs)[x]
        invariant dirs == WithAssets(old(dirs), ASSETS[..i], w.product)
      {
        var name := ASSETS[i];
        assert ASSETS[..i + 1][..i] == ASSETS[..i];
        if name in w.product.assets {
          var f := Command(w);
          if f.Broken? {
            if name !in dirs && f.file.Some? {
              dirs := dirs[name := map[]];
            }
            return false;
          }
          var existing := TreeAt(dirs, name);
          f := Command(w);
          if f.Broken? {
            dirs := dirs[name := f.tree];
            return false;
          }
          dirs := dirs[name := existing + w.product.assets[name]];
        }
      }
      assert ASSETS[..|ASSETS|] == ASSETS;
      ok := true;
    }

    /** Both loops of install_release. */
    method InstallTrees(service: string, w: World) returns (ok: bool)
      modifies this`dirs, this`commands, this`out
      ensures old(out) <= out && (ok ==> out == old(out))
      ensures old(dirs).Keys <= dirs.Keys
      ensures forall x :: x in dirs && x !in old(dirs) ==> x in ASSETS && x in w.product.assets
      ensures forall x :: x in old(dirs) && x != "bin" && x !in ASSETS ==> dirs[x] == old(dirs)[x]
      ensures ok ==> Complete(service, w.product) && "bin" in old(dirs)
      ensures ok ==> dirs == ReleasedDirs(old(dirs), service, w.product, w.pid)
      ensures Smooth(w) && Complete(service, w.product) && "bin" in old(dirs) ==> ok
    {
      ok := InstallArtifacts(service, w);
      if ok {
        assert dirs == old(dirs)["bin" := dirs["bin"]];
        ok := InstallAssets(w);
      }
    }

    /** install_release. Only Partystar has an after-copy hook. */
    method InstallRelease(service: string, w: World) returns (ok: bool)
      modifies this`dirs, this`revision, this`deployed, this`commands, this`out
      ensures deployed && old(out) <= out && (ok ==> out == old(out))
      ensures old(dirs).Keys <= dirs.Keys
      ensures forall x :: x in dirs && x !in old(dirs) ==> x in ASSETS && x in w.product.assets
      ensures forall x :: x in old(dirs) && x != "bin" && x !in ASSETS ==> dirs[x] == old(dirs)[x]
      ensures ok ==> Complete(service, w.product) && "bin" in old(dirs)
      ensures ok ==> dirs == ReleasedDirs(old(dirs), service, w.product, w.pid) && revision == Some(w.product.revision)
      ensures ok ==> HookReady(service, w)
      ensures ok && ValidService(service) ==> BuiltFiles(service, dirs, w.product)
      ensures Smooth(w) && Complete(service, w.product) && "bin" in old(dirs) && HookReady(service, w) ==> ok
    {
      deployed := true;
      ok := InstallTrees(service, w);
      if !ok {
        return;
      }
      if ValidService(service) {
        FilesOfRelease(old(dirs), service, w.product, w.pid);
      }
      var f := Command(w);
      if f.Broken? {
        revision := f.file;
        return false;
      }
      revision := Some(w.product.revision);
      if service == PARTYSTAR {
        if !w.hookPresent {
          Die("after-copy hook not found: " + HOOK);
          return false;
        }
        f := Command(w);
        if f.Broken? {
          return false;
        }
      }
    }

    /** render_new_supervisor_config; its checks on the rendered text are part of
        `config`. */
    method RenderConfig(service: string, p: string, w: World) returns (ok: bool)
      modifies this`newConfigs, this`commands, this`out
      ensures old(out) <= out && (ok ==> out == old(out))
      ensures ok ==> newConfigs == old(newConfigs) + [p] && Registrable(service, p, confs, w)
      ensures !ok ==> newConfigs == old(newConfigs)
      ensures Smooth(w) && Registrable(service, p, confs, w) ==> ok
    {
      var problem := ConfigProblem(service, p, confs, w);
      if problem.Some? {
        Die(problem.value);
        return false;
      }
      var f := Command(w);
      if f.Broken? {
        return false;
      }
      newConfigs := newConfigs + [p];
      ok := true;
    }

    /** The first loop of register_new_processes. */
    method RenderConfigs(service: string, processes: seq<string>, w: World) returns (ok: bool)
      requires newConfigs == []
      modifies this`newConfigs, this`commands, this`out
      ensures old(out) <= out && (ok ==> out == old(out))
      ensures forall p :: p in newConfigs ==> Registrable(service, p, confs, w)
      ensures ok ==> forall p :: p in newConfigs <==> p in processes && !w.registered(p)
      ensures Smooth(w) && AllRegistrable(service, processes, confs, w) ==> ok
    {
      for i := 0 to |processes|
        invariant out == old(out)
        invariant forall p :: p in newConfigs <==> p in processes[..i] && !w.registered(p)
        invariant forall p :: p in newConfigs ==> Registrable(service, p, confs, w)
      {
        assert processes[..i + 1] == processes[..i] + [processes[i]];
        if !w.registered(processes[i]) {
          var written := RenderConfig(service, processes[i], w);
          if !written {
            return false;
          }
        }
      }
      assert processes[..|processes|] == processes;
      ok := true;
    }

    /** The second loop: rendered configurations are copied into place. */
    method CopyConfigs(w: World) returns (ok: bool)
      requires forall p :: p in newConfigs ==> p !in confs && w.config(p).Some?
      modifies this`confs, this`commands
      ensures OnlyAdded(old(confs), confs, newConfigs)
      ensures ok ==> forall p :: p in newConfigs ==> p in confs && confs[p] == w.config(p).value
      ensures Smooth(w) ==> ok
    {
      for i := 0 to |newConfigs|
        invariant OnlyAdded(old(confs), confs, newConfigs)
        invariant forall j :: 0 <= j < i ==>
            newConfigs[j] in confs && confs[newConfigs[j]] == w.config(newConfigs[j]).value
      {
        var p := newConfigs[i];
        var f := Command(w);
        if f.Broken? {
          if f.file.Some? {
            confs := confs[p := f.file.value];
          }
          return false;
        }
        confs := confs[p := w.config(p).value];
      }
      ok := true;
    }

    /** register_new_processes */
    method RegisterNewProcesses(service: string, processes: seq<string>, w: World) returns (ok: bool)
      requires newConfigs == []
      modifies this`newConfigs, this`confs, this`commands, this`out
      ensures old(out) <= out && (ok ==> out == old(out))
      ensures OnlyAdded(old(confs), confs, newConfigs)
      ensures ok ==> forall p :: p in newConfigs <==> p in processes && !w.registered(p)
      ensures ok ==> forall p :: p in newConfigs ==> w.config(p).Some? && p in confs && confs[p] == w.config(p).value
      ensures ok ==> AllRegistrable(service, processes, old(confs), w)
      ensures Smooth(w) && AllRegistrable(service, processes, old(confs), w) ==> ok
    {
      ok := RenderConfigs(service, processes, w);
      if !ok {
        return;
      }
      ok := CopyConfigs(w);
      if ok && |newConfigs| > 0 {
        ok := Reread(w);
      }
    }

    /** supervisorctl reread, then one update for each new process. */
    method Reread(w: World) returns (ok: bool)
      modifies this`commands
      ensures Smooth(w) ==> ok
    {
      for i := 0 to |newConfigs| + 1 {
        var f := Command(w);
        if f.Broken? {
          return false;
        }
      }
      ok := true;
    }

    /** The loop of rollback over bin and the asset directories. */
    method RestoreDirs(saved: map<string, Tree>)
      modifies this`dirs
      ensures forall x :: x in dirs <==> x in old(dirs) || (x in SAVED && x in saved)
      ensures forall x :: x in dirs ==> dirs[x] == if x in SAVED && x in saved then saved[x] else old(dirs)[x]
    {
      for i := 0 to |SAVED|
        invariant forall x :: x in dirs <==> x in old(dirs) || (x in SAVED[..i] && x in saved)
        invariant forall x :: x in dirs ==> dirs[x] == if x in SAVED[..i] && x in saved then saved[x] else old(dirs)[x]
      {
        var name := SAVED[i];
        assert SAVED[..i + 1] == SAVED[..i] + [name];
        if name in saved {
          dirs := dirs - {name};
          dirs := dirs[name := saved[name]];
        }
      }
      assert SAVED[..|SAVED|] == SAVED;
    }

    /** The loop of rollback that deletes new configurations. */
    method RemoveConfigs()
      modifies this`confs
      ensures confs == old(confs) - (set p | p in newConfigs)
    {
      for i := 0 to |newConfigs|
        invariant confs == old(confs) - (set p | p in newConfigs[..i])
      {
        assert newConfigs[..i + 1] == newConfigs[..i] + [newConfigs[i]];
        if newConfigs[i] in confs {
          confs := confs - {newConfigs[i]};
        }
      }
      assert newConfigs[..|newConfigs|] == newConfigs;
    }

    /** rollback, when its own commands succeed: bin and asset directories come
        back from the backup, the revision is copied back or removed, and the
        configurations of new processes are deleted. */
    method Rollback()
      modifies this`dirs, this`revision, this`confs, this`out
      ensures !deployed || backup.None? ==> View() == old(View())
      ensures deployed && backup.Some? ==>
        && confs == old(confs) - (set p | p in newConfigs)
        && revision == backup.value.revision
        && (forall x :: x in dirs <==> x in old(dirs) || (x in SAVED && x in backup.value.dirs))
        && (forall x :: x in dirs ==>
              dirs[x] == if x in SAVED && x in backup.value.dirs then backup.value.dirs[x] else old(dirs)[x])
      ensures out == old(out) + (if deployed && backup.Some? then [RestoreLine()] else [])
    {
      assert out == out + [];
      if !deployed || backup.None? {
        return;
      }
      Print(RestoreLine());
      RestoreDirs(backup.value.dirs);
      revision := backup.value.revision;
      RemoveConfigs();
    }

    /** restart_and_verify on the script's output. */
    method RestartAll(processes: seq<string>, w: World) returns (ok: bool, log: seq<string>)
      modifies this`out
      ensures out == old(out) + log && (ok <==> Supervision.Passes(w.supervisor, processes))
      ensures IsRestartLog(log, processes, w)
    {
      var visits;
      ok, log, visits := RestartLog.RestartAndVerify(processes, w.supervisor);
      out := out + log;
    }

    /** install_release and register_new_processes; `phase` is the one that was
        reached. */
    method InstallAndRegister(service: string, processes: seq<string>, w: World) returns (ok: bool, phase: Phase)
      requires newConfigs == []
      modifies this`dirs, this`revision, this`deployed, this`newConfigs, this`confs, this`commands, this`out
      ensures old(out) <= out && (ok ==> out == old(out) + w.installNoise)
      ensures deployed && Changed(old(View()), View(), newConfigs, w.product)
      ensures phase == Installing || phase == Registering
      ensures phase == Registering ==>
          Complete(service, w.product) && "bin" in old(dirs)
          && dirs == ReleasedDirs(old(dirs), service, w.product, w.pid)
      ensures ok ==> phase == Registering && Installable(service, processes, old(View()), w)
      ensures ok ==> revision == Some(w.product.revision) && AllRegistered(old(confs), confs, processes, w)
      ensures Smooth(w) && Installable(service, processes, old(View()), w) ==> ok
    {
      phase := Installing;
      ok := InstallRelease(service, w);
      if ok {
        phase := Registering;
        ok := RegisterNewProcesses(service, processes, w);
      }
      if ok {
        out := out + w.installNoise;
      }
    }

    /** restart_and_verify, then the commit, which clears `deployed`, then the
        pruning of old backups, which tells what it removes. */
    method RestartAndCommit(processes: seq<string>, w: World)
      returns (ok: bool, phase: Phase, log: seq<string>)
      modifies this`deployed, this`out, this`commands
      ensures out == old(out) + log + Foot(phase, w) && IsRestartLog(log, processes, w)
      ensures phase == Restarting || phase == Committed
      ensures phase == Committed <==> Supervision.Passes(w.supervisor, processes)
      ensures phase == Restarting ==> !ok && deployed == old(deployed)
      ensures phase == Committed ==> !deployed
      ensures Smooth(w) && phase == Committed ==> ok
    {
      phase := Restarting;
      ok, log := RestartAll(processes, w);
      assert out == out + [];
      if ok {
        phase := Committed;
        deployed := false;
        ghost var before := out;
        Print(RestartLog.Log(RestartLog.COMPLETED + w.product.revision));
        out := out + Removals(w.expired);
        assert out == before + LastWords(w);
        var f := Command(w);
        ok := f.Fine?;
      }
    }

    /** The steps of the transaction: the script stops at the first failure. */
    method Steps(service: string, processes: seq<string>, w: World)
      returns (ok: bool, phase: Phase, ghost log: seq<string>)
      requires Idle()
      modifies this`dirs, this`revision, this`confs, this`backup, this`deployed, this`newConfigs
      modifies this`commands, this`out
      ensures old(out) <= out && phase != Early
      ensures phase == Restarting || phase == Committed ==>
          out == old(out) + InstallLines(w) + log + Foot(phase, w) && IsRestartLog(log, processes, w)
      ensures phase == BackingUp ==> !ok && !deployed && View() == old(View())
      ensures phase == Installing || phase == Registering || phase == Restarting ==>
          !ok && deployed && Reversible(old(View()), View(), backup, newConfigs, w.product)
      ensures phase == Registering || phase == Restarting || phase == Committed ==>
          Complete(service, w.product) && "bin" in old(dirs)
          && dirs == ReleasedDirs(old(dirs), service, w.product, w.pid)
      ensures phase == Committed ==>
          !deployed && revision == Some(w.product.revision) && AllRegistered(old(confs), confs, processes, w)
      ensures phase == Committed ==> Installable(service, processes, old(View()), w)
      ensures phase == Restarting || phase == Committed ==>
          (phase == Committed <==> Supervision.Passes(w.supervisor, processes))
      ensures Smooth(w) && Installable(service, processes, old(View()), w) ==>
          phase == Restarting || (phase == Committed && ok)
    {
      phase, log := BackingUp, [];
      ok := PrepareBackup(w);
      if !ok {
        return;
      }
      ok, phase := InstallAndRegister(service, processes, w);
      ghost var mid := View();
      assert Reversible(old(View()), mid, backup, newConfigs, w.product);
      if !ok {
        return;
      }
      InstalledInAll(old(out), w);
      ok, phase, log := RestartAndCommit(processes, w);
      assert View() == mid;
    }

    /** main up to the phase message: parsing, resolution, the other actions,
        source and build. `go` holds the resolved processes of a deployment. */
    method Preliminaries(args: seq<string>, w: World) returns (code: nat, go: Option<seq<string>>)
      requires source.None?
      modifies this`out, this`commands, this`source
      ensures FromProduct(source, w)
      ensures source.Some? <==> ReachesSource(args, w) && w.sourceOk
      ensures DeployRequest(args) && !ReachesSource(args, w) ==> EndsFatally(out)
      ensures ReachesSource(args, w) && !w.sourceOk ==> EndsWith(out, w.sourceNoise)
      ensures go.None? && code == 0 ==> !DeployRequest(args)
      ensures go.Some? <==> Admissible(args, w)
      ensures go.Some? ==> IsSelection(args, w, go.value)
      ensures go.Some? ==> out == old(out) + [ServiceLine(Service(args))] + SourceLines(w)
      ensures AnswerOf(args, w, code, old(out), out) == Proper
    {
      var done, a, resolved;
      done, code, a, resolved := Check(args, w);
      go := None;
      if !done {
        code, go := Act(a, resolved, w);
      }
      AnswerEndsFatally(args, w, code, old(out), out);
    }

    /** Its parsing and its checks: whether they are all there was to do, and otherwise
        the request and its processes. */
    method Check(args: seq<string>, w: World)
      returns (done: bool, code: nat, a: DeployArguments.ScriptArgs, processes: seq<string>)
      modifies this`out
      ensures done ==> IsAnswer(args, w, code, old(out), out)
      ensures done ==> !ReachesSource(args, w) && (code == 0 ==> !DeployRequest(args))
      ensures !done ==> DeployArguments.Parse(args) == DeployArguments.Parsed(a) && out == old(out)
      ensures !done ==> DeployArguments.ProcessAction(a.action) && ValidService(a.service) && w.onTestHost
      ensures !done ==> Resolvable(a, w) && IsResolution(a, w, processes)
    {
      done, a, processes := true, DeployArguments.ScriptArgs("", "", [], 0), [];
      var parsed := DeployArguments.ParseArgs(args);
      if parsed.Usage? {
        code := parsed.code;
        return;
      }
      if parsed.Die? {
        Die(parsed.reason);
        code := 1;
        return;
      }
      a := parsed.args;
      code := 0;
      DeployArguments.ActionIsKnown(args);
      if a.action == "list" {
        return;
      }
      var problem;
      problem, processes := Configure(a, w);
      if problem.Some? {
        Die(problem.value);
        RunReport.FatalIsFatal(problem.value);
        code := 1;
        return;
      }
      done := a.action == "processes";
    }

    /** main behind its checks, up to the phase message. */
    method Act(a: DeployArguments.ScriptArgs, processes: seq<string>, w: World)
      returns (code: nat, go: Option<seq<string>>)
      requires source.None? && IsResolution(a, w, processes)
      requires DeployArguments.ProcessAction(a.action)
      modifies this`out, this`commands, this`source
      ensures source == if a.action == "deploy" && w.lockFree && w.sourceOk then Some(w.product.revision) else None
      ensures a.action == "deploy" && w.lockFree && !w.sourceOk ==> EndsWith(out, w.sourceNoise)
      ensures go == if source.Some? && w.buildOk then Some(processes) else None
      ensures go.None? && code == 0 ==> a.action != "deploy"
      ensures go.Some? ==> out == old(out) + [ServiceLine(a.service)] + SourceLines(w)
      ensures IsActed(a, w, code, old(out), out)
    {
      if a.action == "status" {
        var f := Command(w);
        return (if f.Fine? then 0 else 1), None;
      }
      if a.action == "restart" {
        code := RestartOnly(a, processes, w);
        return code, None;
      }
      Print(ServiceLine(a.service));
      if a.action == "plan" {
        return 0, None;
      }
      code, go := PrepareAndBuild(a.service, processes, w);
    }

    /** The restart action. */
    method RestartOnly(a: DeployArguments.ScriptArgs, processes: seq<string>, w: World) returns (code: nat)
      requires IsResolution(a, w, processes)
      modifies this`out
      ensures !w.lockFree ==> Dies(code, old(out), out, "another deployment is running for " + a.service)
      ensures w.lockFree ==> Restarts(a, w, code, old(out), out)
    {
      if !w.lockFree {
        Die("another deployment is running for " + a.service);
        RunReport.FatalIsFatal("another deployment is running for " + a.service);
        return 1;
      }
      var ok, log := RestartAll(processes, w);
      code := if ok then 0 else 1;
    }

    /** configure_service, assert_test_host and, for all but one action,
        resolve_processes: what they die of, or the processes. */
    method Configure(a: DeployArguments.ScriptArgs, w: World) returns (problem: Option<string>, processes: seq<string>)
      ensures problem.None? ==> ValidService(a.service) && w.onTestHost
      ensures problem.None? && a.action != "processes" ==> Resolvable(a, w) && IsResolution(a, w, processes)
      ensures !ValidService(a.service) ==> problem == Some("service is not allowlisted: " + a.service)
      ensures ValidService(a.service) && !w.onTestHost ==>
          problem == Some("refusing to run outside the PSL 004 test host (192.168.35.221)")
      ensures problem.Some? ==>
          !(ValidService(a.service) && w.onTestHost && (a.action == "processes" || Resolvable(a, w)))
    {
      processes := [];
      if !ValidService(a.service) {
        return Some("service is not allowlisted: " + a.service), [];
      }
      if !w.onTestHost {
        return Some("refusing to run outside the PSL 004 test host (192.168.35.221)"), [];
      }
      if a.action == "processes" {
        return None, [];
      }
      var resolved, problem' := DeployArguments.ResolveProcesses(a.service, a.selectors, w.names);
      if resolved.None? {
        return Some(problem'), [];
      }
      assert resolved.value[0] in resolved.value;
      return None, resolved.value;
    }

    /** The lock, prepare_source and build_source of a deployment. */
    method PrepareAndBuild(service: string, processes: seq<string>, w: World)
      returns (code: nat, go: Option<seq<string>>)
      requires source.None?
      modifies this`out, this`source
      ensures source == if w.lockFree && w.sourceOk then Some(w.product.revision) else None
      ensures !w.lockFree ==> code == 1 && EndsFatally(out)
      ensures w.lockFree && !w.sourceOk ==> EndsWith(out, w.sourceNoise)
      ensures go == if w.lockFree && w.sourceOk && w.buildOk then Some(processes) else None
      ensures go.None? ==> code != 0
      ensures go.Some? ==> out == old(out) + SourceLines(w)
    {
      if !w.lockFree {
        Die("another deployment is running for " + service);
        RunReport.FatalIsFatal("another deployment is running for " + service);
        return 1, None;
      }
      ghost var before := out;
      out := out + w.sourceNoise;
      if !w.sourceOk {
        assert out[|before|..] == w.sourceNoise;
        return 1, None;
      }
      source := Some(w.product.revision);
      Print(RestartLog.Log(RestartLog.SOURCE + w.product.revision));
      out := out + w.noise;
      assert out == before + SourceLines(w);
      if !w.buildOk {
        return 1, None;
      }
      return 0, Some(processes);
    }

    /** The same for a deploy request and the processes it selects, after the phase
        message. */
    method Transaction(args: seq<string>, processes: seq<string>, w: World)
      returns (code: nat, phase: Phase, ghost log: seq<string>)
      requires Idle() && Admissible(args, w) && IsSelection(args, w, processes)
      modifies this`dirs, this`revision, this`confs, this`backup, this`deployed, this`newConfigs
      modifies this`commands, this`out
      ensures phase != Early && (code == 0 ==> phase == Committed)
      ensures PhaseLine() in out
      ensures phase == Restarting || phase == Committed ==>
          out == old(out) + [PhaseLine()] + InstallLines(w) + log + Foot(phase, w) && IsRestartLog(log, processes, w)
      ensures phase == BackingUp ==> !deployed && View() == old(View())
      ensures phase == Installing || phase == Registering || phase == Restarting ==>
          deployed && Reversible(old(View()), View(), backup, newConfigs, w.product)
      ensures phase == Registering || phase == Restarting ==>
          Complete(Service(args), w.product) && "bin" in old(dirs)
          && dirs == ReleasedDirs(old(dirs), Service(args), w.product, w.pid)
      ensures phase == Committed ==> !deployed && Released(old(View()), View(), args, w)
      ensures phase == Committed ==> Healthy(args, w) && Fits(args, old(View()), w)
      ensures phase == Restarting ==> Unhealthy(args, w)
      ensures Unhindered(args, old(View()), w) ==>
          (phase == Committed || phase == Restarting)
          && (phase == Committed <==> Healthy(args, w)) && (phase == Restarting <==> Unhealthy(args, w))
          && (phase == Committed <==> code == 0)
    {
      Print(PhaseLine());
      ghost var said := out;
      assert said[|said| - 1] == PhaseLine();
      var ok;
      ok, phase, log := Steps(Service(args), processes, w);
      Kept(said, out);
      code := if ok then 0 else 1;
      FitsWhatIsSelected(args, w, processes, old(View()));
      HealthIsDecided(args, w, processes);
      if phase == Committed {
        CommitIsRelease(old(View()), View(), args, processes, w);
      }
    }

    /** main without the trap. */
    method Run(args: seq<string>, w: World) returns (code: nat, phase: Phase, ghost log: seq<string>)
      requires Fresh()
      modifies this
      ensures phase == Early ==> Idle() && View() == old(View())
      ensures AnswerOf(args, w, code, old(out), out) == Proper
      ensures FromProduct(source, w)
      ensures source.Some? <==> ReachesSource(args, w) && w.sourceOk
      ensures DeployRequest(args) && !ReachesSource(args, w) ==> EndsFatally(out)
      ensures ReachesSource(args, w) && !w.sourceOk ==> EndsWith(out, w.sourceNoise)
      ensures phase == Restarting || phase == Committed ==> PrintedInAll(old(out), out, args, log, phase, w)
      ensures phase != Early ==> PhaseLine() in out
      ensures code == 0 && DeployRequest(args) ==> phase == Committed
      ensures phase == BackingUp ==> code != 0 && !deployed && View() == old(View())
      ensures phase == Installing || phase == Registering || phase == Restarting ==>
          code != 0 && deployed && Reversible(old(View()), View(), backup, newConfigs, w.product)
      ensures phase == Registering || phase == Restarting ==>
          Complete(Service(args), w.product) && "bin" in old(dirs)
          && dirs == ReleasedDirs(old(dirs), Service(args), w.product, w.pid)
      ensures phase == Committed ==> !deployed && Released(old(View()), View(), args, w) && Healthy(args, w)
      ensures phase != Early <==> Admissible(args, w)
      ensures phase == Committed ==> Fits(args, old(View()), w)
      ensures phase == Restarting ==> Unhealthy(args, w)
      ensures Unhindered(args, old(View()), w) ==>
          (phase == Committed || phase == Restarting)
          && (phase == Committed <==> Healthy(args, w)) && (phase == Restarting <==> Unhealthy(args, w))
          && (phase == Committed <==> code == 0)
    {
      phase, log := Early, [];
      var go;
      code, go := Preliminaries(args, w);
      if go.None? {
        return;
      }
      code, phase, log := Transaction(args, go.value, w);
      InAll(old(out), args, log, phase, w);
      AdmissibleAnswer(args, w, code, old(out), out);
    }

    /** main under the exit trap. Every failure before the commit leaves the
        target restored. When the failure comes after a complete installation, the
        target is exactly as before unless the build brought new asset directories. */
    method Execute(args: seq<string>, w: World)
      returns (code: nat, phase: Phase, ghost said: seq<string>, ghost log: seq<string>)
      requires Fresh()
      modifies this
      ensures phase != Early ==> PhaseLine() in out
      ensures AnswerOf(args, w, code, old(out), said) == Proper
      ensures FromProduct(source, w)
      ensures source.Some? <==> ReachesSource(args, w) && w.sourceOk
      ensures out == said + TrapLines(code != 0, phase, source.Some?, w.product.revision)
      ensures phase == Restarting || phase == Committed ==> PrintedInAll(old(out), said, args, log, phase, w)
      ensures DeployRequest(args) && !ReachesSource(args, w) ==> EndsFatally(said)
      ensures ReachesSource(args, w) && !w.sourceOk ==> EndsWith(said, w.sourceNoise)
      ensures phase == Early || phase == BackingUp ==> View() == old(View())
      ensures phase != Committed ==> Restored(old(View()), View(), w.product)
      ensures phase == Committed ==> Released(old(View()), View(), args, w) && Healthy(args, w)
      ensures phase == Committed ==> BuiltFiles(Service(args), dirs, w.product)
      ensures code == 0 && DeployRequest(args) ==> phase == Committed
      ensures phase != Early <==> Admissible(args, w)
      ensures phase == Committed ==> Fits(args, old(View()), w)
      ensures phase == Restarting ==> Unhealthy(args, w)
      ensures Unhindered(args, old(View()), w) ==>
          (phase == Committed || phase == Restarting)
          && (phase == Committed <==> Healthy(args, w)) && (phase == Restarting <==> Unhealthy(args, w))
          && (phase == Committed <==> code == 0)
      ensures phase == Registering || phase == Restarting ==>
          (View() == old(View()) <==> !BringsNewAssets(old(View()), w.product))
    {
      code, phase, log := Run(args, w);
      said := out;
      assert out == out + [];
      if phase == Committed {
        FilesOfRelease(old(dirs), Service(args), w.product, w.pid);
      }
      if code != 0 {
        Cleanup(old(View()), w.product, w.product.revision);
        if phase == Registering || phase == Restarting {
          LeftoverAssets(old(View()), View(), Service(args), w.product, w.pid);
        }
      }
    }

    /** cleanup after a failure. */
    method Cleanup(ghost before: Target, ghost b: Build, ghost prepared: string)
      requires source.Some? ==> source.value == prepared
      modifies this`dirs, this`revision, this`confs, this`out
      ensures out == old(out) + TrapOutput(old(deployed && backup.Some?), source.Some?, prepared)
      ensures old(!deployed || backup.None?) ==> View() == old(View())
      ensures old(deployed && Reversible(before, View(), backup, newConfigs, b)) ==>
          Restored(before, View(), b) && dirs.Keys == old(dirs).Keys
    {
      assert out == out + [];
      Rollback();
      if old(deployed && Reversible(before, View(), backup, newConfigs, b)) {
        RollbackRestores(before, old(View()), View(), newConfigs, b);
      }
      if source.Some? {
        Print(FailedLine(source.value));
      }
    }
  }

  /** A directory that the build brought and the target did not have stays behind
      after a complete installation was rolled back. Nothing else does. */
  lemma LeftoverAssets(before: Target, after: Target, service: string, b: Build, pid: string)
    requires Complete(service, b) && "bin" in before.dirs && Restored(before, after, b)
    requires after.dirs.Keys == ReleasedDirs(before.dirs, service, b, pid).Keys
    ensures after == before <==> !BringsNewAssets(before, b)
  {
    if BringsNewAssets(before, b) {
      var name :| name in ASSETS && name in b.assets && name !in before.dirs;
      AssetNames();
      ReleaseByDirectory(before.dirs, service, b, pid, name);
      assert name in after.dirs.Keys;
    } else {
      assert after.dirs == before.dirs;
    }
  }

  function PhaseLine(): string {
    RestartLog.Log(PHASE_MESSAGE)
  }

  /** The prepared source, if there is one, is the product's. */
  predicate FromProduct(source: Option<string>, w: World) {
    source.Some? ==> source.value == w.product.revision
  }

  /** What the exit trap prints last. */
  function FailedLine(revision: string): string {
    RestartLog.Log(RestartLog.FAILED + revision)
  }

  function BackupLine(): string {
    RestartLog.Log("backup")
  }

  function RestoreLine(): string {
    RestartLog.Log("restoring")
  }

  function ServiceLine(service: string): string {
    RestartLog.Log("service: " + service)
  }

  /** What prepare_source and build_source print when they succeed. */
  function SourceLines(w: World): seq<string> {
    w.sourceNoise + [RestartLog.Log(RestartLog.SOURCE + w.product.revision)] + w.noise
  }

  /** What backup, installation and registration print when they succeed. */
  function InstallLines(w: World): seq<string> {
    [BackupLine()] + w.installNoise
  }

  /** What the exit trap prints. */
  function TrapOutput(restored: bool, prepared: bool, revision: string): seq<string> {
    (if restored then [RestoreLine()] else []) + (if prepared then [FailedLine(revision)] else [])
  }

  /** What follows the output of main, given how far it got. */
  function TrapLines(failed: bool, phase: Phase, prepared: bool, revision: string): seq<string> {
    if !failed then []
    else TrapOutput(phase == Installing || phase == Registering || phase == Restarting, prepared, revision)
  }

  /** What follows the restart log. */
  function Foot(phase: Phase, w: World): seq<string> {
    if phase == Committed then LastWords(w) else []
  }

  /** What a deployment prints in front of its restart log. */
  function Head(args: seq<string>, w: World): seq<string> {
    [ServiceLine(Service(args))] + SourceLines(w) + [PhaseLine()] + InstallLines(w)
  }

  /** The log of restarting these processes. */
  ghost predicate IsRestartLog(log: seq<string>, processes: seq<string>, w: World) {
    RestartLog.Logged(w.supervisor, processes, Supervision.VisitAll(w.supervisor, processes, 0, 0), log)
  }

  /** All that a deployment which got to the restarts has printed. */
  ghost predicate PrintedInAll(before: seq<string>, out: seq<string>, args: seq<string>, log: seq<string>,
                               phase: Phase, w: World)
  {
    && out == before + Head(args, w) + log + Foot(phase, w)
    && exists ps :: IsSelection(args, w, ps) && IsRestartLog(log, ps, w)
  }

  lemma InstalledInAll(before: seq<string>, w: World)
    ensures before + [BackupLine()] + w.installNoise == before + InstallLines(w)
  {
    assert before + [BackupLine()] + w.installNoise == before + ([BackupLine()] + w.installNoise);
  }

  lemma InAll(before: seq<string>, args: seq<string>, log: seq<string>, phase: Phase, w: World)
    ensures before + [ServiceLine(Service(args))] + SourceLines(w) + [PhaseLine()] + InstallLines(w) + log
              + Foot(phase, w)
         == before + Head(args, w) + log + Foot(phase, w)
  {
    assert before + [ServiceLine(Service(args))] + SourceLines(w) + [PhaseLine()] + InstallLines(w)
        == before + Head(args, w);
  }

  /** What the pruning of old backups prints. */
  function Removals(expired: seq<string>): seq<string> {
    seq(|expired|, i requires 0 <= i < |expired| => RestartLog.Log("removing expired backup: " + expired[i]))
  }

  /** What a committed deployment prints after its restart log. */
  function LastWords(w: World): seq<string> {
    [RestartLog.Log(RestartLog.COMPLETED + w.product.revision)] + Removals(w.expired)
  }

  /* Other requests */

  /** The selected processes were restarted, and nothing else was done. */
  ghost predicate Restarts(a: DeployArguments.ScriptArgs, w: World, code: nat, before: seq<string>, out: seq<string>) {
    exists ps, log ::
      IsResolution(a, w, ps) && IsRestartLog(log, ps, w) && out == before + log
      && code == if Supervision.Passes(w.supervisor, ps) then 0 else 1
  }

  /** It printed this reason and nothing else. */
  predicate Dies(code: nat, before: seq<string>, out: seq<string>, reason: string) {
    code == 1 && out == before + [RunReport.Fatal(reason)]
  }

  /** What main does for the requests that are not deployments: its exit code, and
      what it prints, in the order in which the script looks at its request. */
  ghost predicate IsAnswer(args: seq<string>, w: World, code: nat, before: seq<string>, out: seq<string>) {
    match DeployArguments.Parse(args)
    case Usage(exit) => code == exit && out == before
    case Die(reason) => code == 1 && out == before + [RunReport.Fatal(reason)]
    case Parsed(a) =>
      if a.action == "list" then code == 0 && out == before
      else if !ValidService(a.service) then Dies(code, before, out, "service is not allowlisted: " + a.service)
      else if !w.onTestHost then
        Dies(code, before, out, "refusing to run outside the PSL 004 test host (192.168.35.221)")
      else if a.action == "processes" then code == 0 && out == before
      else if !Resolvable(a, w) then code == 1 && EndsFatally(out)
      else IsActed(a, w, code, before, out)
  }

  datatype Answer = Proper | Improper

  /** `IsAnswer` as a value. */
  ghost function AnswerOf(args: seq<string>, w: World, code: nat, before: seq<string>, out: seq<string>): Answer {
    if IsAnswer(args, w, code, before, out) then Proper else Improper
  }

  /** The same once all checks have passed. */
  ghost predicate IsActed(a: DeployArguments.ScriptArgs, w: World, code: nat, before: seq<string>, out: seq<string>) {
    if a.action == "status" then (Smooth(w) ==> code == 0) && out == before
    else if a.action == "plan" then code == 0
    else if a.action == "restart" && !w.lockFree then
      Dies(code, before, out, "another deployment is running for " + a.service)
    else if a.action == "restart" then Restarts(a, w, code, before, out)
    else !w.lockFree ==> code == 1 && EndsFatally(out)
  }

  /** About a deployment that gets to its transaction the rest says more. */
  lemma AdmissibleAnswer(args: seq<string>, w: World, code: nat, before: seq<string>, out: seq<string>)
    requires Admissible(args, w)
    ensures AnswerOf(args, w, code, before, out) == Proper
  {
  }

  lemma AnswerEndsFatally(args: seq<string>, w: World, code: nat, before: seq<string>, out: seq<string>)
    requires IsAnswer(args, w, code, before, out)
    ensures DeployRequest(args) && !ReachesSource(args, w) ==> EndsFatally(out)
  {
    if DeployRequest(args) {
      RunReport.FatalIsFatal("service is not allowlisted: " + Service(args));
      RunReport.FatalIsFatal("refusing to run outside the PSL 004 test host (192.168.35.221)");
    }
  }

  /** The script is asked to deploy, and its arguments are in order. */
  predicate DeployRequest(args: seq<string>) {
    DeployArguments.Parse(args).Parsed? && DeployArguments.Parse(args).args.action == "deploy"
  }

  function Service(args: seq<string>): string {
    if DeployRequest(args) then DeployArguments.Parse(args).args.service else ""
  }

  ghost predicate Selected(args: seq<string>, w: World, p: string) {
    && DeployRequest(args)
    && DeployArguments.Wanted(Service(args), w.names, DeployArguments.Parse(args).args.selectors, p)
  }

  /** The process was selected and Supervisor did not know it. */
  ghost predicate NewProcess(args: seq<string>, w: World, p: string) {
    Selected(args, w, p) && !w.registered(p)
  }

  /** The selected processes, as resolve_processes lists them. */
  ghost predicate IsSelection(args: seq<string>, w: World, ps: seq<string>) {
    DeployArguments.StrictlySorted(ps) && forall p :: p in ps <==> Selected(args, w, p)
  }

  /** restart_and_verify leaves every selected process RUNNING. */
  ghost predicate Healthy(args: seq<string>, w: World) {
    exists ps :: IsSelection(args, w, ps) && Supervision.Passes(w.supervisor, ps)
  }

  /** It does not. */
  ghost predicate Unhealthy(args: seq<string>, w: World) {
    exists ps :: IsSelection(args, w, ps) && !Supervision.Passes(w.supervisor, ps)
  }

  lemma SelectionIsUnique(args: seq<string>, w: World, a: seq<string>, b: seq<string>)
    requires IsSelection(args, w, a) && IsSelection(args, w, b)
    ensures a == b
  {
    DeployArguments.SortedListIsUnique(a, b);
  }

  /** The selection decides between healthy and unhealthy. */
  lemma HealthIsDecided(args: seq<string>, w: World, ps: seq<string>)
    requires IsSelection(args, w, ps)
    ensures Healthy(args, w) <==> Supervision.Passes(w.supervisor, ps)
    ensures Unhealthy(args, w) <==> !Supervision.Passes(w.supervisor, ps)
  {
    forall qs | IsSelection(args, w, qs) ensures qs == ps {
      SelectionIsUnique(args, w, qs, ps);
    }
  }

  lemma Kept(before: seq<string>, after: seq<string>)
    requires before <= after
    ensures forall line :: line in before ==> line in after
  {
    assert forall i :: 0 <= i < |before| ==> before[i] == after[i];
  }

  lemma FitsWhatIsSelected(args: seq<string>, w: World, ps: seq<string>, before: Target)
    requires IsSelection(args, w, ps)
    ensures Fits(args, before, w) <==> Installable(Service(args), ps, before, w)
  {
  }

  /** They exclude each other. */
  lemma NotBothHealthyAndUnhealthy(args: seq<string>, w: World)
    ensures !(Healthy(args, w) && Unhealthy(args, w))
  {
    if Healthy(args, w) {
      var ps :| IsSelection(args, w, ps) && Supervision.Passes(w.supervisor, ps);
      HealthIsDecided(args, w, ps);
    }
  }

  /** Every selector can be mapped, and some process is selected. */
  ghost predicate Resolvable(a: DeployArguments.ScriptArgs, w: World) {
    && (forall s :: s in a.selectors ==> DeployArguments.Mappable(a.service, s))
    && (exists p :: DeployArguments.Wanted(a.service, w.names, a.selectors, p))
  }

  ghost predicate IsResolution(a: DeployArguments.ScriptArgs, w: World, ps: seq<string>) {
    && DeployArguments.StrictlySorted(ps)
    && forall p :: p in ps <==> DeployArguments.Wanted(a.service, w.names, a.selectors, p)
  }

  /** A deployment gets as far as preparing its source. */
  ghost predicate ReachesSource(args: seq<string>, w: World) {
    && DeployRequest(args) && ValidService(Service(args)) && w.onTestHost
    && Resolvable(DeployArguments.Parse(args).args, w) && w.lockFree
  }

  /** The script reaches the transaction. */
  ghost predicate Admissible(args: seq<string>, w: World) {
    ReachesSource(args, w) && w.sourceOk && w.buildOk
  }

  /** The last line is that of die. */
  predicate EndsFatally(out: seq<string>) {
    out != [] && RunReport.IsFatal(out[|out| - 1])
  }

  predicate EndsWith(out: seq<string>, tail: seq<string>) {
    |tail| <= |out| && out[|out| - |tail|..] == tail
  }

  /** The release fits the target. */
  ghost predicate Installable(service: string, processes: seq<string>, before: Target, w: World) {
    && Complete(service, w.product) && "bin" in before.dirs && HookReady(service, w)
    && AllRegistrable(service, processes, before.confs, w)
  }

  /** The same for the processes that a command line selects. */
  ghost predicate Fits(args: seq<string>, before: Target, w: World) {
    && Complete(Service(args), w.product) && "bin" in before.dirs && HookReady(Service(args), w)
    && (forall p :: NewProcess(args, w, p) ==> Registrable(Service(args), p, before.confs, w))
  }

  /** No command fails, the request reaches the transaction, the release fits. */
  ghost predicate Unhindered(args: seq<string>, before: Target, w: World) {
    Smooth(w) && Admissible(args, w) && Fits(args, before, w)
  }

  /** The configurations after the registration of `processes`. */
  ghost predicate AllRegistered(before: map<string, string>, after: map<string, string>,
                                processes: seq<string>, w: World)
  {
    && (forall p :: p in before ==> p in after && after[p] == before[p])
    && (forall p :: p in after && p !in before ==> p in processes && !w.registered(p))
    && (forall p :: p in processes && !w.registered(p) ==>
          p in after && w.config(p).Some? && after[p] == w.config(p).value)
  }

  lemma CommitIsRelease(before: Target, after: Target, args: seq<string>, processes: seq<string>, w: World)
    requires DeployRequest(args) && ValidService(Service(args))
    requires forall p :: p in processes <==> Selected(args, w, p)
    requires Complete(Service(args), w.product) && "bin" in before.dirs
    requires after.dirs == ReleasedDirs(before.dirs, Service(args), w.product, w.pid)
    requires after.revision == Some(w.product.revision)
    requires AllRegistered(before.confs, after.confs, processes, w)
    ensures Released(before, after, args, w)
  {
  }

  /** The complete effect of a committed deployment. */
  ghost predicate Released(before: Target, after: Target, args: seq<string>, w: World) {
    && DeployRequest(args) && ValidService(Service(args))
    && Complete(Service(args), w.product) && "bin" in before.dirs
    && after.dirs == ReleasedDirs(before.dirs, Service(args), w.product, w.pid)
    && after.revision == Some(w.product.revision)
    && (forall p :: p in after.confs <==> p in before.confs || NewProcess(args, w, p))
    && (forall p :: p in before.confs ==> after.confs[p] == before.confs[p])
    && (forall p :: NewProcess(args, w, p) ==>
          w.config(p).Some? && p in after.confs && after.confs[p] == w.config(p).value)
  }

  /** What Rollback leaves of a reversible state. */
  lemma RollbackRestores(before: Target, mid: Target, after: Target, newConfigs: seq<string>, b: Build)
    requires Changed(before, mid, newConfigs, b)
    requires after.confs == mid.confs - (set p | p in newConfigs)
    requires after.revision == before.revision
    requires forall x :: x in after.dirs <==> x in mid.dirs || (x in SAVED && x in before.dirs)
    requires forall x :: x in after.dirs ==>
        after.dirs[x] == if x in SAVED && x in before.dirs then before.dirs[x] else mid.dirs[x]
    ensures Restored(before, after, b) && after.dirs.Keys == mid.dirs.Keys
  {
    AssetNames();
    assert after.confs == before.confs;
  }
}
