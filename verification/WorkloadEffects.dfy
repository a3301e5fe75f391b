/** What each workload command does to the container it is about and to its row, by the fields of its payload. */
module WorkloadEffects {
  import opened Prelude
  import opened Workloads
  import Text

  function Id(p: Payload): string {
    Text.Trim(Text.PySpace, p.runtimeId)
  }

  /**
   The container a command on an existing workload is about: the one its row names; without a row, the one
   the payload names; without that, the one derived from the runtime's name, if it has one.
   */
  predicate Addresses(naming: Naming, node: Node, p: Payload, name: string) {
    if Id(p) in node.workloads then name == node.workloads[Id(p)].container
    else if Text.Trim(Text.PySpace, p.containerName) != "" then name == Text.Trim(Text.PySpace, p.containerName)
    else Text.Trim(Text.PySpace, p.runtimeName) != "" && name == naming(Id(p), p.runtimeName)
  }

  lemma LookupAddresses(naming: Naming, node: Node, p: Payload, name: string)
    ensures Lookup(naming, node, p) == Some(name) <==> Addresses(naming, node, p, name)
  {
  }

  /** The container is there, and the inspection answered in time. */
  predicate Inspected(naming: Naming, node: Node, p: Payload, seen: bool, name: string) {
    Addresses(naming, node, p, name) && name in node.containers && seen
  }

  /** Only whether this one container runs has changed. */
  predicate OnlyRunningChanged(a: Node, b: Node, name: string, running: bool) {
    && name in a.containers && name in b.containers && b.containers[name].running == running
    && b.containers[name].id == a.containers[name].id && b.containers[name].image == a.containers[name].image
    && b.containers[name].byAgent == a.containers[name].byAgent
    && b.containers - {name} == a.containers - {name}
    && b.workloads == a.workloads
  }

  lemma SetRunningSets(node: Node, name: string, running: bool)
    requires name in node.containers
    ensures OnlyRunningChanged(node, SetRunning(node, name, running), name, running)
  {
    assert SetRunning(node, name, running).containers - {name} == node.containers - {name};
  }

  /**
   A stop that succeeds has stopped the container found: it is still there, the same one, and does not run;
   nothing else has changed.  A container that is absent, or not inspected in time, is no error.
   */
  lemma StopStops(naming: Naming, node: Node, p: Payload, seen: bool, call: CallResult, name: string)
    ensures Id(p) == "" ==> Stop(naming, node, p, seen, call) == Done(node, false)
    ensures Id(p) != "" && Inspected(naming, node, p, seen, name) ==>
              var d := Stop(naming, node, p, seen, call);
              && (d.ok <==> call == Returned)
              && (if call == RaisedBefore then d.node == node else OnlyRunningChanged(node, d.node, name, false))
    ensures Id(p) != "" && (forall n :: !Inspected(naming, node, p, seen, n)) ==> Stop(naming, node, p, seen, call) == Done(node, true)
  {
    LookupAddresses(naming, node, p, name);
    if name in node.containers {
      SetRunningSets(node, name, false);
    }
    var found := Lookup(naming, node, p);
    if found.Some? {
      LookupAddresses(naming, node, p, found.value);
      assert found.value in node.containers && seen ==> Inspected(naming, node, p, seen, found.value);
    }
  }

  /**
   A start or restart that finds the container and succeeds leaves it running, the same one, and changes
   nothing else; when nothing is found it is a full deploy.
   */
  lemma StartStarts(naming: Naming, node: Node, p: Payload, seen: bool, call: CallResult, env: DeployEnv, name: string)
    ensures Id(p) == "" ==> StartOrDeploy(naming, node, p, seen, call, env) == Done(node, false)
    ensures Id(p) != "" && Inspected(naming, node, p, seen, name) ==>
              var d := StartOrDeploy(naming, node, p, seen, call, env);
              && (d.ok <==> call == Returned)
              && (match call
                  case RaisedBefore => d.node == node
                  case RaisedStopped => OnlyRunningChanged(node, d.node, name, false)
                  case _ => OnlyRunningChanged(node, d.node, name, true))
    ensures Id(p) != "" && (forall n :: !Inspected(naming, node, p, seen, n)) ==>
              StartOrDeploy(naming, node, p, seen, call, env) == Deploy(naming, node, p, env)
  {
    LookupAddresses(naming, node, p, name);
    if name in node.containers {
      SetRunningSets(node, name, true);
      SetRunningSets(node, name, false);
    }
    var found := Lookup(naming, node, p);
    if found.Some? {
      LookupAddresses(naming, node, p, found.value);
      assert found.value in node.containers && seen ==> Inspected(naming, node, p, seen, found.value);
    }
  }

  /** The name a deploy gives its container: the payload's own, or one derived from the runtime's name or id. */
  predicate Names(naming: Naming, p: Payload, name: string) {
    if Text.Trim(Text.PySpace, p.containerName) != "" then name == Text.Trim(Text.PySpace, p.containerName)
    else name == naming(Id(p), if p.runtimeName != "" then p.runtimeName else Id(p))
  }

  /** The payload's explicit image, or the provider's default. */
  predicate Wants(p: Payload, image: string) {
    image == if p.image != "" then p.image else p.fallbackImage
  }

  /**
   A deploy succeeds exactly when the payload has an id and an image, what stood under its name was seen
   and removed, and every step went well.  Then the container under that name runs the wanted image, the
   row holds its name and id, and every other container and row is as before.
   */
  lemma DeployRuns(naming: Naming, node: Node, p: Payload, env: DeployEnv, name: string, image: string)
    requires Names(naming, p, name) && Wants(p, image)
    ensures var d := Deploy(naming, node, p, env);
            && (d.ok <==> && Id(p) != "" && image != "" && env.validated && env.prepared && env.run.Started? && env.reported && env.ready
                          && (name in node.containers ==> env.seen && env.removal == Removed))
            && (d.ok ==> && name in d.node.containers && d.node.containers[name] == Container(env.run.id, image, true, true)
                         && d.node.workloads == node.workloads[Id(p) := Workload(name, env.run.id)])
            && d.node.containers - {name} == node.containers - {name}
            && (forall rid :: rid in node.workloads && rid != Id(p) ==> rid in d.node.workloads && d.node.workloads[rid] == node.workloads[rid])
  {
    assert DeployName(naming, p) == name && Image(p) == image;
    var before := BeforeRun(naming, node, p, env);
    assert before.containers - {name} == node.containers - {name};
    var d := Deploy(naming, node, p, env);
    assert d.node.containers - {name} == before.containers - {name};
  }

  /** A container that is there but was not seen, or could not be removed, keeps its place: the deploy fails and changes nothing. */
  lemma TakenNameFails(naming: Naming, node: Node, p: Payload, env: DeployEnv, name: string)
    requires Names(naming, p, name) && name in node.containers && (!env.seen || env.removal == RaisedKept)
    ensures Deploy(naming, node, p, env) == Done(node, false)
  {
    assert DeployName(naming, p) == name;
  }

  /**
   A removal that succeeds has removed the container it is about and the row, and nothing else; one that
   fails keeps every row, and every container but the one that is gone although the call raised.
   */
  lemma RemoveRemoves(naming: Naming, node: Node, p: Payload, r: Removal)
    ensures var d := Remove(naming, node, p, r);
            && (d.ok ==> d.node.workloads == node.workloads - {Id(p)}) && (!d.ok ==> d.node.workloads == node.workloads)
            && (d.ok <==> Id(p) != "" && (r == Removed || forall n :: !Addresses(naming, node, p, n)))
            && (forall n :: Addresses(naming, node, p, n) ==>
                  && (d.ok ==> d.node.containers == node.containers - {n})
                  && d.node.containers == if Id(p) == "" || r == RaisedKept then node.containers else node.containers - {n})
            && ((forall n :: !Addresses(naming, node, p, n)) ==> d.node.containers == node.containers)
  {
    var found := Lookup(naming, node, p);
    forall n
      ensures Addresses(naming, node, p, n) <==> found == Some(n)
    {
      LookupAddresses(naming, node, p, n);
    }
    if found.Some? {
      assert Addresses(naming, node, p, found.value);
    }
  }

  /** An update is a removal and then, if that succeeded, a deploy over what it left. */
  lemma UpdateReplaces(naming: Naming, node: Node, p: Payload, r: Removal, env: DeployEnv, name: string, image: string)
    requires Names(naming, p, name) && Wants(p, image)
    ensures var u := Update(naming, node, p, r, env);
            && (u.ok ==> && name in u.node.containers && u.node.containers[name] == Container(env.run.id, image, true, true) && env.run.Started?
                         && u.node.workloads == node.workloads[Id(p) := Workload(name, env.run.id)]
                         && (forall n :: Addresses(naming, node, p, n) && n != name ==> n !in u.node.containers))
            && (forall n :: n in node.containers && n != name && !Addresses(naming, node, p, n) ==>
                  n in u.node.containers && u.node.containers[n] == node.containers[n])
  {
    RemoveRemoves(naming, node, p, r);
    var removed := Remove(naming, node, p, r);
    if removed.ok {
      DeployRuns(naming, removed.node, p, env, name, image);
      var u := Update(naming, node, p, r, env);
      forall n | n != name
        ensures n in u.node.containers <==> n in removed.node.containers
        ensures n in u.node.containers ==> u.node.containers[n] == removed.node.containers[n]
      {
        assert n in u.node.containers - {name} <==> n in removed.node.containers - {name};
      }
    }
  }
}
