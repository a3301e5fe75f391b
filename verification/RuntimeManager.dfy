/** The workload commands step by step, against an abstract container runtime. */
module RuntimeManager {
  import opened Prelude
  import opened Workloads
  import opened PolicyGuard
  import opened Agent

  class Manager {
    const naming: Naming
    const allowlist: seq<string>
    var containers: map<string, Container>
    var workloads: map<string, Workload>
    var maintenance: bool
    var draining: bool

    function Current(): Node
      reads this
    {
      Node(containers, workloads)
    }

    function Whole(): State
      reads this
    {
      State(Current(), maintenance, draining)
    }

    constructor (naming: Naming, allowlist: seq<string>, s: State)
      ensures this.naming == naming && this.allowlist == allowlist && Whole() == s
    {
      this.naming, this.allowlist := naming, allowlist;
      containers, workloads := s.node.containers, s.node.workloads;
      maintenance, draining := s.maintenance, s.draining;
    }

    // The container runtime

    method RuntimeRemove(name: string, r: Removal) returns (ok: bool)
      modifies this`containers
      ensures Current() == AfterRemoval(old(Current()), name, r) && (ok <==> r.Removed?)
    {
      if !r.RaisedKept? {
        containers := containers - {name};
      }
      ok := r.Removed?;
    }

    /** docker run: a name that is taken makes it fail; a start error can leave a created container. */
    method RuntimeRun(name: string, image: string, r: RunResult) returns (id: Option<string>)
      modifies this`containers
      ensures id == if name !in old(containers) && r.Started? then Some(r.id) else None
      ensures containers == if name in old(containers) || r.NotCreated? then old(containers)
                            else old(containers)[name := Container(r.id, image, r.Started?, true)]
    {
      if name in containers || r.NotCreated? {
        return None;
      }
      containers := containers[name := Container(r.id, image, r.Started?, true)];
      id := if r.Started? then Some(r.id) else None;
    }

    method SetContainerRunning(name: string, running: bool)
      requires name in containers
      modifies this`containers
      ensures Current() == SetRunning(old(Current()), name, running)
    {
      containers := containers[name := containers[name].(running := running)];
    }

    /** runtime.start(), restart() or stop() on a container that is there. */
    method CallRuntime(name: string, goal: bool, call: CallResult) returns (ok: bool)
      requires name in containers
      modifies this`containers
      ensures Current() == AfterCall(old(Current()), name, goal, call) && (ok <==> call.Returned?)
    {
      if call.Returned? || call.RaisedAfter? {
        SetContainerRunning(name, goal);
      } else if call.RaisedStopped? {
        SetContainerRunning(name, false);
      }
      ok := call.Returned?;
    }

    // runtime_manager.py

    method DeployWorkload(p: Payload, env: DeployEnv) returns (ok: bool)
      modifies this`containers, this`workloads
      ensures Done(Current(), ok) == Deploy(naming, old(Current()), p, env)
    {
      var runtimeId := RuntimeId(p);
      if runtimeId == "" || Image(p) == "" || !env.validated {
        return false;
      }
      var name := DeployName(naming, p);
      if name in containers && env.seen {
        var removed := RuntimeRemove(name, env.removal);
        if !removed {
          return false;
        }
      }
      if !env.prepared {
        return false;
      }
      var id := RuntimeRun(name, Image(p), env.run);
      if id.None? || !env.reported {
        return false;
      }
      workloads := workloads[runtimeId := Workload(name, id.value)];
      ok := env.ready;
    }

    method StartWorkload(p: Payload, seen: bool, call: CallResult, env: DeployEnv) returns (ok: bool)
      modifies this`containers, this`workloads
      ensures Done(Current(), ok) == StartOrDeploy(naming, old(Current()), p, seen, call, env)
    {
      if RuntimeId(p) == "" {
        return false;
      }
      var name := Lookup(naming, Current(), p);
      if name.None? || !(name.value in containers && seen) {
        ok := DeployWorkload(p, env);
        return;
      }
      ok := CallRuntime(name.value, true, call);
    }

    method StopWorkload(p: Payload, seen: bool, call: CallResult) returns (ok: bool)
      modifies this`containers
      ensures Done(Current(), ok) == Stop(naming, old(Current()), p, seen, call)
    {
      if RuntimeId(p) == "" {
        return false;
      }
      var name := Lookup(naming, Current(), p);
      if name.Some? && name.value in containers && seen {
        ok := CallRuntime(name.value, false, call);
        return;
      }
      return true;
    }

    method RemoveWorkload(p: Payload, r: Removal) returns (ok: bool)
      modifies this`containers, this`workloads
      ensures Done(Current(), ok) == Remove(naming, old(Current()), p, r)
    {
      if RuntimeId(p) == "" {
        return false;
      }
      var name := Lookup(naming, Current(), p);
      if name.Some? {
        ok := RuntimeRemove(name.value, r);
        if !ok {
          return;
        }
      }
      workloads := workloads - {RuntimeId(p)};
      ok := true;
    }

    method UpdateWorkload(p: Payload, r: Removal, env: DeployEnv) returns (ok: bool)
      modifies this`containers, this`workloads
      ensures Done(Current(), ok) == Update(naming, old(Current()), p, r, env)
    {
      ok := RemoveWorkload(p, r);
      if ok {
        ok := DeployWorkload(p, env);
      }
    }

    // dispatcher.py, one command at a time

    method HandleCommand(c: Command)
      modifies this
      ensures Whole() == Handle(naming, allowlist, old(Whole()), c)
    {
      if !Allows(TypeOf(c), maintenance, draining) {
        return;
      }
      if (c.DeployWorkload? || c.UpdateWorkload? || c.StartWorkload? || c.RestartWorkload?)
         && c.p.image != "" && !AllowsImage(allowlist, c.p.image) {
        return;
      }
      match c
      case DeployWorkload(p, env) => var _ := DeployWorkload(p, env);
      case StartWorkload(p, seen, call, env) => var _ := StartWorkload(p, seen, call, env);
      case RestartWorkload(p, seen, call, env) => var _ := StartWorkload(p, seen, call, env);
      case StopWorkload(p, seen, call) => var _ := StopWorkload(p, seen, call);
      case RemoveWorkload(p, r) => var _ := RemoveWorkload(p, r);
      case UpdateWorkload(p, r, env) => var _ := UpdateWorkload(p, r, env);
      case SetMaintenanceMode(enabled) => maintenance := enabled;
      case DrainNode => draining := true;
      case ResumeNode => draining := false;
      case Other(_) =>
      case Vanishes(name) => containers := containers - {name};
    }
  }
}
