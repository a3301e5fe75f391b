/** Which containers the agent has created, still has, and records in no workload row. */
module NoOrphans {
  import opened Workloads

  predicate Recorded(node: Node, name: string) {
    exists rid :: rid in node.workloads && node.workloads[rid].container == name
  }

  predicate Orphan(node: Node, name: string) {
    name in node.containers && node.containers[name].byAgent && !Recorded(node, name)
  }

  ghost predicate Injective(own: string -> string) {
    forall a, b :: own(a) == own(b) ==> a == b
  }

  /** Every row names its runtime's own container. */
  predicate RowsNamed(own: string -> string, node: Node) {
    forall rid :: rid in node.workloads ==> node.workloads[rid].container == own(rid)
  }

  /** The payload names its runtime's own container, whichever way the name is derived. */
  predicate KeepsName(naming: Naming, own: string -> string, p: Payload) {
    && DeployName(naming, p) == own(RuntimeId(p))
    && (FallbackName(naming, p).Some? ==> FallbackName(naming, p).value == own(RuntimeId(p)))
  }

  /** With one name per runtime and different names for different runtimes, a container is recorded by its own runtime's row or not at all. */
  lemma RecordedByOwnRow(own: string -> string, node: Node, rid: string)
    requires Injective(own) && RowsNamed(own, node)
    ensures Recorded(node, own(rid)) <==> rid in node.workloads
    ensures forall a, b :: a in node.workloads && b in node.workloads && node.workloads[a].container == node.workloads[b].container ==> a == b
  {
    if rid in node.workloads {
      assert node.workloads[rid].container == own(rid);
    }
  }

  /** A command on one runtime leaves every other runtime's container and row alone. */
  ghost predicate SameElsewhere(own: string -> string, a: Node, b: Node, rid: string) {
    && (forall name :: name != own(rid) ==> (name in a.containers <==> name in b.containers)
                                            && (name in a.containers ==> b.containers[name] == a.containers[name]))
    && (forall r :: r != rid ==> (r in a.workloads <==> r in b.workloads) && (r in a.workloads ==> b.workloads[r] == a.workloads[r]))
  }

  /** So it can orphan or adopt no container but that of its own runtime. */
  lemma OrphansElsewhereStay(own: string -> string, a: Node, b: Node, rid: string, name: string)
    requires Injective(own) && RowsNamed(own, a) && RowsNamed(own, b) && SameElsewhere(own, a, b, rid) && name != own(rid)
    ensures Orphan(b, name) <==> Orphan(a, name)
  {
    if Recorded(a, name) {
      var r :| r in a.workloads && a.workloads[r].container == name;
      assert r in b.workloads && b.workloads[r].container == name;
    }
    if Recorded(b, name) {
      var r :| r in b.workloads && b.workloads[r].container == name;
      assert r in a.workloads && a.workloads[r].container == name;
    }
  }

  /** The deploy created a container and failed before writing its row. */
  predicate FailsUnrecorded(naming: Naming, node: Node, p: Payload, env: DeployEnv) {
    Created(naming, node, p, env).Some? && (env.run.LeftBehind? || !env.reported)
  }

  /**
   Exactly when a deploy leaves its container unrecorded: run() left something behind, or the progress
   send after it failed, and there was no row of an earlier deploy; or the container was an orphan
   already and the deploy did not get as far as removing it.
   */
  lemma DeployOrphansIff(naming: Naming, own: string -> string, node: Node, p: Payload, env: DeployEnv)
    requires Injective(own) && RowsNamed(own, node) && KeepsName(naming, own, p)
    ensures var d, rid := Deploy(naming, node, p, env), RuntimeId(p);
            && RowsNamed(own, d.node) && SameElsewhere(own, node, d.node, rid)
            && (Orphan(d.node, own(rid)) <==>
                  && rid !in node.workloads
                  && (FailsUnrecorded(naming, node, p, env)
                      || (Created(naming, node, p, env).None? && Orphan(BeforeRun(naming, node, p, env), own(rid)))))
            && (d.ok ==> rid in d.node.workloads && !Orphan(d.node, own(rid)))
  {
    var d, rid := Deploy(naming, node, p, env), RuntimeId(p);
    RecordedByOwnRow(own, node, rid);
    RecordedByOwnRow(own, d.node, rid);
    RecordedByOwnRow(own, BeforeRun(naming, node, p, env), rid);
  }

  /** remove_workload drops the row only after the container is gone, so it orphans nothing. */
  lemma RemoveOrphansNothing(naming: Naming, own: string -> string, node: Node, p: Payload, r: Removal)
    requires Injective(own) && RowsNamed(own, node) && KeepsName(naming, own, p)
    ensures var d, rid := Remove(naming, node, p, r), RuntimeId(p);
            && RowsNamed(own, d.node) && SameElsewhere(own, node, d.node, rid)
            && (Orphan(d.node, own(rid)) ==> Orphan(node, own(rid)))
            && (d.ok ==> rid !in d.node.workloads)
            && (d.ok && (rid in node.workloads || FallbackName(naming, p).Some?) ==> own(rid) !in d.node.containers)
  {
    var d, rid := Remove(naming, node, p, r), RuntimeId(p);
    RecordedByOwnRow(own, node, rid);
    RecordedByOwnRow(own, d.node, rid);
  }

  /** Exactly when an update orphans the container of a runtime that had none orphaned. */
  lemma UpdateOrphansIff(naming: Naming, own: string -> string, node: Node, p: Payload, r: Removal, env: DeployEnv)
    requires Injective(own) && RowsNamed(own, node) && KeepsName(naming, own, p) && !Orphan(node, own(RuntimeId(p)))
    ensures var d, rid := Update(naming, node, p, r, env), RuntimeId(p);
            && RowsNamed(own, d.node) && SameElsewhere(own, node, d.node, rid)
            && (Orphan(d.node, own(rid)) <==>
                  Remove(naming, node, p, r).ok && FailsUnrecorded(naming, Remove(naming, node, p, r).node, p, env))
  {
    var removed, rid := Remove(naming, node, p, r), RuntimeId(p);
    RemoveOrphansNothing(naming, own, node, p, r);
    if removed.ok {
      DeployOrphansIff(naming, own, removed.node, p, env);
      RecordedByOwnRow(own, removed.node, rid);
      var before := BeforeRun(naming, removed.node, p, env);
      RecordedByOwnRow(own, before, rid);
      assert Orphan(before, own(rid)) ==> Orphan(removed.node, own(rid));
    }
  }

  /** start, restart and stop: only their fallback to a deploy can orphan anything. */
  lemma StartOrphansIff(naming: Naming, own: string -> string, node: Node, p: Payload, seen: bool, call: CallResult, env: DeployEnv)
    requires Injective(own) && RowsNamed(own, node) && KeepsName(naming, own, p) && !Orphan(node, own(RuntimeId(p)))
    ensures var d, rid := StartOrDeploy(naming, node, p, seen, call, env), RuntimeId(p);
            && RowsNamed(own, d.node) && SameElsewhere(own, node, d.node, rid)
            && (Orphan(d.node, own(rid)) <==>
                  && rid != "" && Found(naming, node, p, seen).None? && rid !in node.workloads
                  && FailsUnrecorded(naming, node, p, env))
  {
    var rid := RuntimeId(p);
    RecordedByOwnRow(own, node, rid);
    if rid != "" && Found(naming, node, p, seen).None? {
      DeployOrphansIff(naming, own, node, p, env);
      RecordedByOwnRow(own, BeforeRun(naming, node, p, env), rid);
    } else {
      RecordedByOwnRow(own, StartOrDeploy(naming, node, p, seen, call, env).node, rid);
    }
  }

  lemma StopOrphansNothing(naming: Naming, own: string -> string, node: Node, p: Payload, seen: bool, call: CallResult)
    requires Injective(own) && RowsNamed(own, node) && KeepsName(naming, own, p)
    ensures var d, rid := Stop(naming, node, p, seen, call), RuntimeId(p);
            && RowsNamed(own, d.node) && SameElsewhere(own, node, d.node, rid)
            && (Orphan(d.node, own(rid)) <==> Orphan(node, own(rid)))
  {
    RecordedByOwnRow(own, node, RuntimeId(p));
    RecordedByOwnRow(own, Stop(naming, node, p, seen, call).node, RuntimeId(p));
  }

  /**
   Update refines deploy: when both succeed against the same outside world they end with the same rows,
   and with the same containers exactly when the container the update looked up is the one the deploy
   replaces, or is not there; otherwise the deploy has left it behind.
   */
  lemma UpdateMatchesDeployIff(naming: Naming, node: Node, p: Payload, r: Removal, env: DeployEnv)
    requires Update(naming, node, p, r, env).ok && Deploy(naming, node, p, env).ok
    ensures var u, d, found := Update(naming, node, p, r, env).node, Deploy(naming, node, p, env).node, Lookup(naming, node, p);
            && u.workloads == d.workloads
            && (u.containers == d.containers <==>
                  found.None? || found.value == DeployName(naming, p) || found.value !in node.containers)
  {
    var name, found := DeployName(naming, p), Lookup(naming, node, p);
    var u, d := Update(naming, node, p, r, env).node, Deploy(naming, node, p, env).node;
    var removed := Remove(naming, node, p, r).node;
    assert d.containers == (node.containers - {name})[name := d.containers[name]];
    assert u.containers == (removed.containers - {name})[name := u.containers[name]];
    assert u.workloads == d.workloads;
    if found.Some? && found.value != name && found.value in node.containers {
      assert found.value in d.containers && found.value !in u.containers;
    }
  }

  /** The progress send between run() and the row fails: the container stays, and no row knows it. */
  lemma DeployCanOrphan(naming: Naming)
    ensures var p, env := Payload("r", "c", "", "i", ""), DeployEnv(true, true, Removed, true, Started("1"), false, true);
            var d := Deploy(naming, Node(map[], map[]), p, env);
            !d.ok && Orphan(d.node, "c")
  {
    var p, env := Payload("r", "c", "", "i", ""), DeployEnv(true, true, Removed, true, Started("1"), false, true);
    var d := Deploy(naming, Node(map[], map[]), p, env);
    assert d.node.containers["c"] == Container("1", "i", true, true);
  }

  /** The row names another container than the payload: an update removes it, a deploy leaves it running. */
  lemma UpdateCanDiffer(naming: Naming)
    ensures var p, env := Payload("r", "new", "", "i", ""), DeployEnv(true, true, Removed, true, Started("2"), true, true);
            var node := Node(map["old" := Container("1", "i", true, true)], map["r" := Workload("old", "1")]);
            var u, d := Update(naming, node, p, Removed, env), Deploy(naming, node, p, env);
            u.ok && d.ok && "old" !in u.node.containers && "old" in d.node.containers && Orphan(d.node, "old")
  {
    var p, env := Payload("r", "new", "", "i", ""), DeployEnv(true, true, Removed, true, Started("2"), true, true);
    var node := Node(map["old" := Container("1", "i", true, true)], map["r" := Workload("old", "1")]);
    var d := Deploy(naming, node, p, env).node;
    assert d.workloads == map["r" := Workload("new", "2")];
    assert "old" != "new";
  }
}
