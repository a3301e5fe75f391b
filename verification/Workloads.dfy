/**
 runtime_manager.py as functions over the node: the container runtime's containers and the
 workload rows of the state store.  What the outside world answers comes in as environments.
 */
module Workloads {
  import opened Prelude
  import Text

  /** `byAgent` marks the containers this agent has run; others may have names the agent wants. */
  datatype Container = Container(id: string, image: string, running: bool, byAgent: bool)
  datatype Workload = Workload(container: string, containerId: string)
  datatype Node = Node(containers: map<string, Container>, workloads: map<string, Workload>)

  /** The payload fields that decide names and images; `image` is the explicit one, `fallbackImage` the provider's default. */
  datatype Payload = Payload(runtimeId: string, containerName: string, runtimeName: string, image: string, fallbackImage: string)

  /** _container_name(runtime_id, runtime_name=...) */
  type Naming = (string, string) -> string

  /** runtime.remove(): it raises, or not, and the container is gone, or not. */
  datatype Removal = Removed | RaisedKept | RaisedGone
  /** runtime.run(): success, a failure that creates nothing, a failure that leaves a created container behind. */
  datatype RunResult = Started(id: string) | NotCreated | LeftBehind(id: string)

  /**
   runtime.start(), restart() or stop(), with what follows in the command: it returns; it raises and
   nothing has changed; it raises, or the endpoint lookup does, after it took effect; or it raises and the
   container stands still, as after a restart that got half way.
   */
  datatype CallResult = Returned | RaisedBefore | RaisedAfter | RaisedStopped

  /**
   What happens outside during one deploy: `validated` (up to the stale check), `seen` (the inspect
   answers in time), `removal`, `prepared` (command, model files and image), `run`, `reported` (the
   progress send between run and the row), `ready` (readiness probe and the last sends).
   */
  datatype DeployEnv = DeployEnv(validated: bool, seen: bool, removal: Removal, prepared: bool, run: RunResult, reported: bool, ready: bool)

  datatype Done = Done(node: Node, ok: bool)

  function RuntimeId(p: Payload): string {
    Text.Trim(Text.PySpace, p.runtimeId)
  }

  function Image(p: Payload): string {
    if p.image != "" then p.image else p.fallbackImage
  }

  /** Line 109: the name deploy_workload uses. */
  function DeployName(naming: Naming, p: Payload): string {
    var explicit := Text.Trim(Text.PySpace, p.containerName);
    if explicit != "" then explicit
    else naming(RuntimeId(p), if p.runtimeName != "" then p.runtimeName else RuntimeId(p))
  }

  /** Lines 704-712: the name to look for when there is no row. */
  function FallbackName(naming: Naming, p: Payload): Option<string> {
    var explicit := Text.Trim(Text.PySpace, p.containerName);
    if explicit != "" then Some(explicit)
    else if Text.Trim(Text.PySpace, p.runtimeName) != "" then Some(naming(RuntimeId(p), p.runtimeName))
    else None
  }

  /** _lookup_container, line 694. */
  function Lookup(naming: Naming, node: Node, p: Payload): Option<string> {
    if RuntimeId(p) in node.workloads then Some(node.workloads[RuntimeId(p)].container) else FallbackName(naming, p)
  }

  function Without(node: Node, name: string): Node {
    node.(containers := node.containers - {name})
  }

  function AfterRemoval(node: Node, name: string, r: Removal): Node {
    if r.RaisedKept? then node else Without(node, name)
  }

  /** The deploy has removed what stood in the way and is about to call run(). */
  predicate ReachesRun(naming: Naming, node: Node, p: Payload, env: DeployEnv) {
    && RuntimeId(p) != "" && Image(p) != "" && env.validated && env.prepared
    && (DeployName(naming, p) in node.containers && env.seen ==> env.removal.Removed?)
  }

  function BeforeRun(naming: Naming, node: Node, p: Payload, env: DeployEnv): Node {
    if RuntimeId(p) != "" && Image(p) != "" && env.validated && DeployName(naming, p) in node.containers && env.seen
    then AfterRemoval(node, DeployName(naming, p), env.removal)
    else node
  }

  /** The container that this deploy's run() brings into being, if any: a taken name makes it fail. */
  function Created(naming: Naming, node: Node, p: Payload, env: DeployEnv): Option<Container> {
    if !ReachesRun(naming, node, p, env) || DeployName(naming, p) in BeforeRun(naming, node, p, env).containers then None
    else match env.run
      case Started(id) => Some(Container(id, Image(p), true, true))
      case LeftBehind(id) => Some(Container(id, Image(p), false, true))
      case NotCreated => None
  }

  /** deploy_workload, line 82. */
  function Deploy(naming: Naming, node: Node, p: Payload, env: DeployEnv): Done {
    var name := DeployName(naming, p);
    var before := BeforeRun(naming, node, p, env);
    match Created(naming, node, p, env)
    case None => Done(before, false)
    case Some(c) =>
      var run := before.(containers := before.containers[name := c]);
      if env.run.LeftBehind? || !env.reported then Done(run, false)
      else Done(run.(workloads := run.workloads[RuntimeId(p) := Workload(name, c.id)]), env.ready)
  }

  /** remove_workload, line 369. */
  function Remove(naming: Naming, node: Node, p: Payload, r: Removal): Done {
    if RuntimeId(p) == "" then Done(node, false)
    else match Lookup(naming, node, p)
      case None => Done(node.(workloads := node.workloads - {RuntimeId(p)}), true)
      case Some(name) =>
        if !r.Removed? then Done(AfterRemoval(node, name, r), false)
        else Done(Without(node, name).(workloads := node.workloads - {RuntimeId(p)}), true)
  }

  /** update_workload, line 383: remove, then deploy. */
  function Update(naming: Naming, node: Node, p: Payload, r: Removal, env: DeployEnv): Done {
    var removed := Remove(naming, node, p, r);
    if removed.ok then Deploy(naming, removed.node, p, env) else removed
  }

  /** The container an existing-workload command finds: looked up, and inspected in time. */
  function Found(naming: Naming, node: Node, p: Payload, seen: bool): Option<string> {
    var name := Lookup(naming, node, p);
    if name.Some? && name.value in node.containers && seen then name else None
  }

  /** start_workload and restart_workload, lines 314 and 351: they deploy when nothing is found. */
  function StartOrDeploy(naming: Naming, node: Node, p: Payload, seen: bool, call: CallResult, env: DeployEnv): Done {
    if RuntimeId(p) == "" then Done(node, false)
    else match Found(naming, node, p, seen)
      case None => Deploy(naming, node, p, env)
      case Some(name) => Done(AfterCall(node, name, true, call), call.Returned?)
  }

  /** stop_workload, line 333: an absent container is no error. */
  function Stop(naming: Naming, node: Node, p: Payload, seen: bool, call: CallResult): Done {
    if RuntimeId(p) == "" then Done(node, false)
    else match Found(naming, node, p, seen)
      case None => Done(node, true)
      case Some(name) => Done(AfterCall(node, name, false, call), call.Returned?)
  }

  /** The container after a call that is to leave it running, or not running. */
  function AfterCall(node: Node, name: string, goal: bool, call: CallResult): Node {
    match call
    case Returned => SetRunning(node, name, goal)
    case RaisedBefore => node
    case RaisedAfter => SetRunning(node, name, goal)
    case RaisedStopped => SetRunning(node, name, false)
  }

  function SetRunning(node: Node, name: string, running: bool): Node {
    if name in node.containers then node.(containers := node.containers[name := node.containers[name].(running := running)]) else node
  }
}
