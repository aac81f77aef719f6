/** When a deployment can succeed, in the names of the services, files and processes. */
module ReleaseConditions {
  import opened Text
  import opened Selectors
  import opened ReleaseTarget
  import opened ReleaseScript
  import DeployArguments

  /** Of the processes of a service, the script can register all but the two of
      Partystar that every host has. */
  lemma RegistrableExactly(service: string, p: string, confs: map<string, string>, w: World)
    requires ValidService(service) && DeployArguments.InNamespace(service, p)
    ensures Registrable(service, p, confs, w) <==>
        p != "go.ps_http" && p != "go.ps_rpc" && w.config(p).Some? && p !in confs
  {
    assert "go.ps_cmd."[6] == 'c' && "go.ps_http"[6] == 'h' && "go.ps_rpc"[6] == 'r';
    assert "room.http"[0] == 'r' && "room.rpc"[0] == 'r' && "room.cmd."[0] == 'r';
    assert HasPrefix(p, "go.ps_cmd.") ==> p[6] == p[..10][6];
    assert HasPrefix(p, "room.cmd.") ==> p[0] == p[..9][0];
  }

  lemma SelectedInNamespace(args: seq<string>, w: World, p: string)
    requires Selected(args, w, p)
    ensures DeployArguments.InNamespace(Service(args), p)
  {
    DeployArguments.WantedInNamespace(Service(args), w.names, DeployArguments.Parse(args).args.selectors, p);
  }

  /** What a target and a build need for a deployment that no command stops. */
  lemma FitsExactly(args: seq<string>, before: Target, w: World)
    requires DeployRequest(args) && ValidService(Service(args))
    ensures Fits(args, before, w) <==>
        && "bin" in before.dirs
        && (Service(args) == "psl-be-partystar" ==> {"http", "rpc", "cmd"} <= w.product.bin.Keys && w.hookPresent)
        && (Service(args) == "psl-be-room" ==> {"room_http", "room_rpc", "room_cmd"} <= w.product.bin.Keys)
        && (forall p :: NewProcess(args, w, p) ==>
              p != "go.ps_http" && p != "go.ps_rpc" && w.config(p).Some? && p !in before.confs)
  {
    CompleteExactly(Service(args), w.product);
    assert |"psl-be-partystar"| == 16 && |"psl-be-room"| == 11;
    forall p | NewProcess(args, w, p)
      ensures Registrable(Service(args), p, before.confs, w) <==>
          p != "go.ps_http" && p != "go.ps_rpc" && w.config(p).Some? && p !in before.confs
    {
      SelectedInNamespace(args, w, p);
      RegistrableExactly(Service(args), p, before.confs, w);
    }
  }
}
