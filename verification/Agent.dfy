/** Whole command sequences, handled one at a time: dispatcher.py's guard and `_execute` over the node. */
module Agent {
  import opened Workloads
  import opened NoOrphans
  import opened PolicyGuard

  datatype Command =
    | DeployWorkload(p: Payload, env: DeployEnv)
    | StartWorkload(p: Payload, seen: bool, call: CallResult, env: DeployEnv)
    | RestartWorkload(p: Payload, seen: bool, call: CallResult, env: DeployEnv)
    | StopWorkload(p: Payload, seen: bool, call: CallResult)
    | RemoveWorkload(p: Payload, removal: Removal)
    | UpdateWorkload(p: Payload, removal: Removal, env: DeployEnv)
    | SetMaintenanceMode(enabled: bool)
    | DrainNode
    | ResumeNode
    | Other(commandType: string)
    | Vanishes(name: string)    // no command: a container disappears without the agent

  datatype State = State(node: Node, maintenance: bool, draining: bool)

  function TypeOf(c: Command): string {
    match c
    case DeployWorkload(_, _) => "deploy_workload"
    case StartWorkload(_, _, _, _) => "start_workload"
    case RestartWorkload(_, _, _, _) => "restart_workload"
    case StopWorkload(_, _, _) => "stop_workload"
    case RemoveWorkload(_, _) => "remove_workload"
    case UpdateWorkload(_, _, _) => "update_workload"
    case SetMaintenanceMode(_) => "set_maintenance_mode"
    case DrainNode => "drain_node"
    case ResumeNode => "resume_node"
    case Other(t) => t
    case Vanishes(_) => ""
  }

  /** Lines 150-158: the four commands that may run an image have an explicit one checked first. */
  predicate ImageRefused(allowlist: seq<string>, c: Command) {
    && (c.DeployWorkload? || c.UpdateWorkload? || c.StartWorkload? || c.RestartWorkload?)
    && c.p.image != "" && !AllowsImage(allowlist, c.p.image)
  }

  /** _execute, line 147. */
  function Execute(naming: Naming, s: State, c: Command): State {
    match c
    case DeployWorkload(p, env) => s.(node := Deploy(naming, s.node, p, env).node)
    case StartWorkload(p, seen, call, env) => s.(node := StartOrDeploy(naming, s.node, p, seen, call, env).node)
    case RestartWorkload(p, seen, call, env) => s.(node := StartOrDeploy(naming, s.node, p, seen, call, env).node)
    case StopWorkload(p, seen, call) => s.(node := Stop(naming, s.node, p, seen, call).node)
    case RemoveWorkload(p, r) => s.(node := Remove(naming, s.node, p, r).node)
    case UpdateWorkload(p, r, env) => s.(node := Update(naming, s.node, p, r, env).node)
    case SetMaintenanceMode(enabled) => s.(maintenance := enabled)
    case DrainNode => s.(draining := true)
    case ResumeNode => s.(draining := false)
    case Other(_) => s
    case Vanishes(name) => s.(node := Without(s.node, name))
  }

  function Handle(naming: Naming, allowlist: seq<string>, s: State, c: Command): State {
    if !Allows(TypeOf(c), s.maintenance, s.draining) || ImageRefused(allowlist, c) then s else Execute(naming, s, c)
  }

  function HandleAll(naming: Naming, allowlist: seq<string>, s: State, commands: seq<Command>): State {
    if commands == [] then s
    else
      var n := |commands| - 1;
      Handle(naming, allowlist, HandleAll(naming, allowlist, s, commands[..n]), commands[n])
  }

  // ---------------------------------------------------------------------------------------------
  // No orphans over whole sequences
  // ---------------------------------------------------------------------------------------------

  /** Between run() and the row nothing fails, and a failed run() leaves nothing behind; everything else may fail. */
  predicate NoGap(env: DeployEnv) {
    env.reported && !env.run.LeftBehind?
  }

  predicate Tidy(naming: Naming, own: string -> string, c: Command) {
    match c
    case DeployWorkload(p, env) => KeepsName(naming, own, p) && NoGap(env)
    case StartWorkload(p, _, _, env) => KeepsName(naming, own, p) && NoGap(env)
    case RestartWorkload(p, _, _, env) => KeepsName(naming, own, p) && NoGap(env)
    case StopWorkload(p, _, _) => KeepsName(naming, own, p)
    case RemoveWorkload(p, _) => KeepsName(naming, own, p)
    case UpdateWorkload(p, _, env) => KeepsName(naming, own, p) && NoGap(env)
    case _ => true
  }

  /** Every container the agent created and still has is recorded, in exactly one row. */
  ghost predicate AllRecordedOnce(node: Node) {
    forall name :: name in node.containers && node.containers[name].byAgent ==>
      exists rid :: RecordedOnlyBy(node, name, rid)
  }

  ghost predicate RecordedOnlyBy(node: Node, name: string, rid: string) {
    && rid in node.workloads && node.workloads[rid].container == name
    && forall other :: other in node.workloads && node.workloads[other].container == name ==> other == rid
  }

  lemma RecordedOnce(own: string -> string, node: Node)
    requires Injective(own) && Clean(own, node)
    ensures AllRecordedOnce(node)
  {
    forall name | name in node.containers && node.containers[name].byAgent
      ensures exists rid :: RecordedOnlyBy(node, name, rid)
    {
      assert !Orphan(node, name);
      var rid :| rid in node.workloads && node.workloads[rid].container == name;
      RecordedByOwnRow(own, node, rid);
      assert RecordedOnlyBy(node, name, rid);
    }
  }

  ghost predicate Clean(own: string -> string, node: Node) {
    RowsNamed(own, node) && forall name :: !Orphan(node, name)
  }

  lemma OneRuntimeOnly(own: string -> string, a: Node, b: Node, rid: string)
    requires Injective(own) && Clean(own, a) && RowsNamed(own, b) && SameElsewhere(own, a, b, rid) && !Orphan(b, own(rid))
    ensures Clean(own, b)
  {
    forall name
      ensures !Orphan(b, name)
    {
      if name != own(rid) {
        OrphansElsewhereStay(own, a, b, rid, name);
      }
    }
  }

  lemma VanishKeepsClean(own: string -> string, node: Node, name: string)
    requires Clean(own, node)
    ensures Clean(own, Without(node, name))
  {
    forall x
      ensures !Orphan(Without(node, name), x)
    {
      assert !Orphan(node, x);
      assert Recorded(node, x) ==> Recorded(Without(node, name), x);
    }
  }

  lemma DeployKeepsClean(naming: Naming, own: string -> string, node: Node, p: Payload, env: DeployEnv)
    requires Injective(own) && Clean(own, node) && KeepsName(naming, own, p) && NoGap(env)
    ensures Clean(own, Deploy(naming, node, p, env).node)
  {
    var before, rid := BeforeRun(naming, node, p, env), RuntimeId(p);
    DeployOrphansIff(naming, own, node, p, env);
    RecordedByOwnRow(own, node, rid);
    RecordedByOwnRow(own, before, rid);
    assert !Orphan(node, own(rid));
    OneRuntimeOnly(own, node, Deploy(naming, node, p, env).node, rid);
  }

  lemma StartKeepsClean(naming: Naming, own: string -> string, node: Node, p: Payload, seen: bool, call: CallResult, env: DeployEnv)
    requires Injective(own) && Clean(own, node) && KeepsName(naming, own, p) && NoGap(env)
    ensures Clean(own, StartOrDeploy(naming, node, p, seen, call, env).node)
  {
    assert !Orphan(node, own(RuntimeId(p)));
    StartOrphansIff(naming, own, node, p, seen, call, env);
    OneRuntimeOnly(own, node, StartOrDeploy(naming, node, p, seen, call, env).node, RuntimeId(p));
  }

  lemma StopKeepsClean(naming: Naming, own: string -> string, node: Node, p: Payload, seen: bool, call: CallResult)
    requires Injective(own) && Clean(own, node) && KeepsName(naming, own, p)
    ensures Clean(own, Stop(naming, node, p, seen, call).node)
  {
    assert !Orphan(node, own(RuntimeId(p)));
    StopOrphansNothing(naming, own, node, p, seen, call);
    OneRuntimeOnly(own, node, Stop(naming, node, p, seen, call).node, RuntimeId(p));
  }

  lemma RemoveKeepsClean(naming: Naming, own: string -> string, node: Node, p: Payload, r: Removal)
    requires Injective(own) && Clean(own, node) && KeepsName(naming, own, p)
    ensures Clean(own, Remove(naming, node, p, r).node)
  {
    assert !Orphan(node, own(RuntimeId(p)));
    RemoveOrphansNothing(naming, own, node, p, r);
    OneRuntimeOnly(own, node, Remove(naming, node, p, r).node, RuntimeId(p));
  }

  lemma UpdateKeepsClean(naming: Naming, own: string -> string, node: Node, p: Payload, r: Removal, env: DeployEnv)
    requires Injective(own) && Clean(own, node) && KeepsName(naming, own, p) && NoGap(env)
    ensures Clean(own, Update(naming, node, p, r, env).node)
  {
    assert !Orphan(node, own(RuntimeId(p)));
    UpdateOrphansIff(naming, own, node, p, r, env);
    OneRuntimeOnly(own, node, Update(naming, node, p, r, env).node, RuntimeId(p));
  }

  lemma TidyKeepsRecords(naming: Naming, own: string -> string, allowlist: seq<string>, s: State, c: Command)
    requires Injective(own) && Clean(own, s.node) && Tidy(naming, own, c)
    ensures Clean(own, Handle(naming, allowlist, s, c).node)
  {
    match c
    case DeployWorkload(p, env) => DeployKeepsClean(naming, own, s.node, p, env);
    case StartWorkload(p, seen, call, env) => StartKeepsClean(naming, own, s.node, p, seen, call, env);
    case RestartWorkload(p, seen, call, env) => StartKeepsClean(naming, own, s.node, p, seen, call, env);
    case StopWorkload(p, seen, call) => StopKeepsClean(naming, own, s.node, p, seen, call);
    case RemoveWorkload(p, r) => RemoveKeepsClean(naming, own, s.node, p, r);
    case UpdateWorkload(p, r, env) => UpdateKeepsClean(naming, own, s.node, p, r, env);
    case Vanishes(name) => VanishKeepsClean(own, s.node, name);
    case _ =>
  }

  /** Between commands, whatever failed before, every container of the agent's is recorded in exactly one row. */
  lemma {:induction false} NoOrphansEver(naming: Naming, own: string -> string, allowlist: seq<string>, s: State, commands: seq<Command>)
    requires Injective(own) && Clean(own, s.node)
    requires forall c :: c in commands ==> Tidy(naming, own, c)
    ensures Clean(own, HandleAll(naming, allowlist, s, commands).node)
    ensures AllRecordedOnce(HandleAll(naming, allowlist, s, commands).node)
  {
    if commands != [] {
      var n := |commands| - 1;
      NoOrphansEver(naming, own, allowlist, s, commands[..n]);
      assert commands[n] in commands;
      TidyKeepsRecords(naming, own, allowlist, HandleAll(naming, allowlist, s, commands[..n]), commands[n]);
    }
    RecordedOnce(own, HandleAll(naming, allowlist, s, commands).node);
  }

  // ---------------------------------------------------------------------------------------------
  // Maintenance and drain
  // ---------------------------------------------------------------------------------------------

  /** Nothing was created or started, and no workload row is new. */
  predicate Frozen(a: Node, b: Node) {
    && b.workloads.Keys <= a.workloads.Keys
    && forall name :: name in b.containers ==>
         && name in a.containers && b.containers[name].id == a.containers[name].id
         && (b.containers[name].running ==> a.containers[name].running)
  }

  /** The four commands that can run or start a container. */
  predicate CanRun(c: Command) {
    c.DeployWorkload? || c.StartWorkload? || c.RestartWorkload? || c.UpdateWorkload?
  }

  lemma OthersFreeze(naming: Naming, allowlist: seq<string>, s: State, c: Command)
    requires !CanRun(c)
    ensures Frozen(s.node, Handle(naming, allowlist, s, c).node)
  {
    ExecuteFreezes(naming, s, c);
  }

  lemma StopFreezes(naming: Naming, node: Node, p: Payload, seen: bool, call: CallResult)
    ensures Frozen(node, Stop(naming, node, p, seen, call).node)
  {
  }

  lemma RemoveFreezes(naming: Naming, node: Node, p: Payload, r: Removal)
    ensures Frozen(node, Remove(naming, node, p, r).node)
  {
  }

  /** In maintenance mode nothing is created, started or newly tracked, over any sequence of commands that does not switch it off. */
  lemma {:induction false} MaintenanceFreezes(naming: Naming, allowlist: seq<string>, s: State, commands: seq<Command>)
    requires s.maintenance && SetMaintenanceMode(false) !in commands
    ensures var q := HandleAll(naming, allowlist, s, commands);
            q.maintenance && Frozen(s.node, q.node)
  {
    if commands != [] {
      var n := |commands| - 1;
      var before, c := HandleAll(naming, allowlist, s, commands[..n]), commands[n];
      assert c in commands;
      MaintenanceFreezes(naming, allowlist, s, commands[..n]);
      if !CanRun(c) {
        OthersFreeze(naming, allowlist, before, c);
      }
    }
  }

  /** While the node is draining the same holds without update commands and resumes. */
  lemma {:induction false} DrainFreezes(naming: Naming, allowlist: seq<string>, s: State, commands: seq<Command>)
    requires s.draining && forall c :: c in commands ==> !c.ResumeNode? && !c.UpdateWorkload?
    ensures var q := HandleAll(naming, allowlist, s, commands);
            q.draining && Frozen(s.node, q.node)
  {
    if commands != [] {
      var n := |commands| - 1;
      var before, c := HandleAll(naming, allowlist, s, commands[..n]), commands[n];
      assert c in commands;
      DrainFreezes(naming, allowlist, s, commands[..n]);
      if !CanRun(c) {
        OthersFreeze(naming, allowlist, before, c);
      }
    }
  }

  /** Some command of this type, somewhere, creates or starts a container or tracks a new workload. */
  ghost predicate CanThaw(naming: Naming, commandType: string) {
    exists s, c :: ThawedBy(naming, s, c, commandType)
  }

  ghost predicate ThawedBy(naming: Naming, s: State, c: Command, commandType: string) {
    TypeOf(c) == commandType && !Frozen(s.node, Execute(naming, s, c).node)
  }

  /** A command of each of the four types that creates a container on an empty node. */
  function Creating(commandType: string): Command {
    var p := Payload("r", "c", "", "i", "");
    var env := DeployEnv(true, true, Removed, true, Started("1"), true, true);
    if commandType == "deploy_workload" then DeployWorkload(p, env)
    else if commandType == "start_workload" then StartWorkload(p, true, Returned, env)
    else if commandType == "restart_workload" then RestartWorkload(p, true, Returned, env)
    else UpdateWorkload(p, Removed, env)
  }

  /**
   Maintenance blocks exactly the command types that can create or start a container or track a workload;
   draining blocks exactly the same ones without update_workload.
   */
  lemma GuardBlocksExactly(naming: Naming, commandType: string)
    ensures !Allows(commandType, true, false) <==> CanThaw(naming, commandType)
    ensures !Allows(commandType, false, true) <==> CanThaw(naming, commandType) && commandType != "update_workload"
  {
    if !Allows(commandType, true, false) {
      CreatingThaws(naming, commandType);
    }
    if CanThaw(naming, commandType) {
      var s, c :| ThawedBy(naming, s, c, commandType);
      if !CanRun(c) {
        ExecuteFreezes(naming, s, c);
      }
    }
  }

  lemma CreatingThaws(naming: Naming, commandType: string)
    requires !Allows(commandType, true, false)
    ensures ThawedBy(naming, State(Node(map[], map[]), false, false), Creating(commandType), commandType)
  {
    assert "c" in Execute(naming, State(Node(map[], map[]), false, false), Creating(commandType)).node.containers;
  }

  lemma ExecuteFreezes(naming: Naming, s: State, c: Command)
    requires !CanRun(c)
    ensures Frozen(s.node, Execute(naming, s, c).node)
  {
    match c
    case StopWorkload(p, seen, call) => StopFreezes(naming, s.node, p, seen, call);
    case RemoveWorkload(p, r) => RemoveFreezes(naming, s.node, p, r);
    case _ =>
  }

  ghost predicate Thaws(naming: Naming, s: State, c: Command, commandType: string) {
    s.draining && !s.maintenance && TypeOf(c) == commandType && !Frozen(s.node, Handle(naming, [], s, c).node)
  }

  /** A draining node outside maintenance can still create or start something through update_workload, and through nothing else. */
  lemma DrainLetsOnlyUpdateThrough(naming: Naming, commandType: string)
    ensures (exists s, c :: Thaws(naming, s, c, commandType)) <==> commandType == "update_workload"
  {
    if commandType == "update_workload" {
      var s := State(Node(map[], map[]), false, true);
      var p := Payload("r", "c", "", "i", "");
      var env := DeployEnv(true, true, Removed, true, Started("1"), true, true);
      var c := UpdateWorkload(p, Removed, env);
      var q := Handle(naming, [], s, c);
      assert "c" in q.node.containers;
      assert Thaws(naming, s, c, commandType);
    }
    if exists s, c :: Thaws(naming, s, c, commandType) {
      var s, c :| Thaws(naming, s, c, commandType);
      if !CanRun(c) {
        OthersFreeze(naming, [], s, c);
      }
    }
  }

  // ---------------------------------------------------------------------------------------------
  // Images
  // ---------------------------------------------------------------------------------------------

  predicate ImageOk(allowlist: seq<string>, defaults: set<string>, image: string) {
    allowlist == [] || (exists i :: 0 <= i < |allowlist| && allowlist[i] <= image) || image in defaults
  }

  predicate ImagesOk(allowlist: seq<string>, defaults: set<string>, node: Node) {
    forall name :: name in node.containers && node.containers[name].byAgent ==>
      ImageOk(allowlist, defaults, node.containers[name].image)
  }

  /** The provider defaults are not checked against the allowlist; every other image the agent runs is. */
  lemma {:induction false} OnlyAllowedImagesRun(naming: Naming, allowlist: seq<string>, defaults: set<string>, s: State, commands: seq<Command>)
    requires ImagesOk(allowlist, defaults, s.node)
    requires forall c :: c in commands && CanRun(c) ==> c.p.fallbackImage == "" || c.p.fallbackImage in defaults
    ensures ImagesOk(allowlist, defaults, HandleAll(naming, allowlist, s, commands).node)
  {
    if commands != [] {
      var n := |commands| - 1;
      OnlyAllowedImagesRun(naming, allowlist, defaults, s, commands[..n]);
      assert commands[n] in commands;
      ImagesStep(naming, allowlist, defaults, HandleAll(naming, allowlist, s, commands[..n]), commands[n]);
    }
  }

  lemma DeployImage(naming: Naming, allowlist: seq<string>, defaults: set<string>, node: Node, p: Payload, env: DeployEnv)
    requires ImagesOk(allowlist, defaults, node) && (Image(p) != "" ==> ImageOk(allowlist, defaults, Image(p)))
    ensures ImagesOk(allowlist, defaults, Deploy(naming, node, p, env).node)
  {
    assert ImagesOk(allowlist, defaults, BeforeRun(naming, node, p, env));
  }

  lemma CheckedImage(allowlist: seq<string>, defaults: set<string>, c: Command)
    requires CanRun(c) && !ImageRefused(allowlist, c) && (c.p.fallbackImage == "" || c.p.fallbackImage in defaults)
    ensures Image(c.p) != "" ==> ImageOk(allowlist, defaults, Image(c.p))
  {
    if c.p.image != "" && allowlist != [] {
      var entry :| entry in allowlist && entry <= c.p.image;
      var i :| 0 <= i < |allowlist| && allowlist[i] == entry;
      assert allowlist[i] <= c.p.image;
    }
  }

  /** No container is new, and none has another image. */
  predicate SameImages(a: Node, b: Node) {
    forall name :: name in b.containers ==>
      name in a.containers && b.containers[name].image == a.containers[name].image && b.containers[name].byAgent == a.containers[name].byAgent
  }

  lemma OtherCommandsKeepImages(naming: Naming, s: State, c: Command)
    requires !CanRun(c)
    ensures SameImages(s.node, Execute(naming, s, c).node)
  {
    match c
    case StopWorkload(p, seen, call) =>
      assert SameImages(s.node, Stop(naming, s.node, p, seen, call).node);
    case RemoveWorkload(p, r) => RemoveKeepsImages(naming, s.node, p, r);
    case _ =>
  }

  lemma RemoveKeepsImages(naming: Naming, node: Node, p: Payload, r: Removal)
    ensures SameImages(node, Remove(naming, node, p, r).node)
  {
  }

  lemma StartImages(naming: Naming, node: Node, p: Payload, seen: bool, call: CallResult, env: DeployEnv)
    ensures var q := StartOrDeploy(naming, node, p, seen, call, env).node; SameImages(node, q) || q == Deploy(naming, node, p, env).node
  {
  }

  lemma ImagesStep(naming: Naming, allowlist: seq<string>, defaults: set<string>, s: State, c: Command)
    requires ImagesOk(allowlist, defaults, s.node)
    requires CanRun(c) ==> c.p.fallbackImage == "" || c.p.fallbackImage in defaults
    ensures ImagesOk(allowlist, defaults, Handle(naming, allowlist, s, c).node)
  {
    if !CanRun(c) {
      OtherCommandsKeepImages(naming, s, c);
    } else if !ImageRefused(allowlist, c) {
      CheckedImage(allowlist, defaults, c);
      DeployImage(naming, allowlist, defaults, s.node, c.p, c.env);
      match c
      case DeployWorkload(_, _) =>
      case UpdateWorkload(p, removal, env) =>
        RemoveKeepsImages(naming, s.node, p, removal);
        DeployImage(naming, allowlist, defaults, Remove(naming, s.node, p, removal).node, p, env);
      case StartWorkload(p, seen, call, env) => StartImages(naming, s.node, p, seen, call, env);
      case RestartWorkload(p, seen, call, env) => StartImages(naming, s.node, p, seen, call, env);
    }
  }

  // ---------------------------------------------------------------------------------------------
  // Which commands are executed, and what the mode switches do
  // ---------------------------------------------------------------------------------------------

  /** The command is one that the mode the node is in holds back. */
  predicate HeldBack(s: State, c: Command) {
    var t := TypeOf(c);
    || (s.maintenance && (t == "deploy_workload" || t == "start_workload" || t == "restart_workload" || t == "update_workload"))
    || (s.draining && (t == "deploy_workload" || t == "start_workload" || t == "restart_workload"))
  }

  /** The command names an image that no entry of the allowlist is a prefix of. */
  predicate ForeignImage(allowlist: seq<string>, c: Command) {
    CanRun(c) && c.p.image != "" && allowlist != [] && forall i :: 0 <= i < |allowlist| ==> !(allowlist[i] <= c.p.image)
  }

  lemma RefusedIffForeign(allowlist: seq<string>, c: Command)
    ensures ImageRefused(allowlist, c) <==> ForeignImage(allowlist, c)
  {
    if CanRun(c) && c.p.image != "" && allowlist != [] {
      if AllowsImage(allowlist, c.p.image) {
        var entry :| entry in allowlist && entry <= c.p.image;
        var i :| 0 <= i < |allowlist| && allowlist[i] == entry;
        assert allowlist[i] <= c.p.image;
      } else {
        assert forall i :: 0 <= i < |allowlist| ==> allowlist[i] in allowlist;
      }
    }
  }

  lemma HeldBackIffBlocked(s: State, c: Command)
    ensures HeldBack(s, c) <==> !Allows(TypeOf(c), s.maintenance, s.draining)
  {
  }

  /** A command is executed exactly when no mode holds it back and its image is not foreign; otherwise nothing changes. */
  lemma ExecutedUnlessRefused(naming: Naming, allowlist: seq<string>, s: State, c: Command)
    ensures Handle(naming, allowlist, s, c) == if HeldBack(s, c) || ForeignImage(allowlist, c) then s else Execute(naming, s, c)
  {
    RefusedIffForeign(allowlist, c);
    HeldBackIffBlocked(s, c);
  }

  function LastMaintenance(before: bool, commands: seq<Command>): bool {
    if commands == [] then before
    else match commands[|commands| - 1]
      case SetMaintenanceMode(enabled) => enabled
      case _ => LastMaintenance(before, commands[..|commands| - 1])
  }

  function LastDrain(before: bool, commands: seq<Command>): bool {
    if commands == [] then before
    else match commands[|commands| - 1]
      case DrainNode => true
      case ResumeNode => false
      case _ => LastDrain(before, commands[..|commands| - 1])
  }

  /** The two modes are always what the last command that switches them said; no mode holds such a command back. */
  lemma {:induction false} ModesFollowLastSwitch(naming: Naming, allowlist: seq<string>, s: State, commands: seq<Command>)
    ensures var q := HandleAll(naming, allowlist, s, commands);
            q.maintenance == LastMaintenance(s.maintenance, commands) && q.draining == LastDrain(s.draining, commands)
  {
    if commands != [] {
      ModesFollowLastSwitch(naming, allowlist, s, commands[..|commands| - 1]);
    }
  }
}
