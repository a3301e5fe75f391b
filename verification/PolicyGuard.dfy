/** policy_guard.py: which commands the local state blocks, and which images may run. */
module PolicyGuard {
  import opened Prelude

  const BLOCKED_DURING_MAINTENANCE: set<string> :=
    {"deploy_workload", "start_workload", "restart_workload", "update_workload"}
  const BLOCKED_DURING_DRAIN: set<string> :=
    {"deploy_workload", "start_workload", "restart_workload"}

  /** validate(): the message of the PolicyViolationError it raises, if it raises one; maintenance is looked at first. */
  function Refusal(commandType: string, maintenance: bool, draining: bool): Option<string> {
    if maintenance && commandType in BLOCKED_DURING_MAINTENANCE
    then Some("Command '" + commandType + "' blocked: node is in maintenance mode.")
    else if draining && commandType in BLOCKED_DURING_DRAIN
    then Some("Command '" + commandType + "' blocked: node is draining.")
    else None
  }

  predicate Allows(commandType: string, maintenance: bool, draining: bool) {
    Refusal(commandType, maintenance, draining).None?
  }

  /** validate_image(): an empty allowlist allows everything; an entry allows what it is a prefix of. */
  predicate AllowsImage(allowlist: seq<string>, image: string) {
    allowlist == [] || exists entry :: entry in allowlist && entry <= image
  }

  /** The four command types held back in maintenance, three of them while draining, and what the refusal says. */
  lemma RefusalMeaning(commandType: string, maintenance: bool, draining: bool)
    ensures var runs := commandType == "deploy_workload" || commandType == "start_workload" || commandType == "restart_workload";
            Refusal(commandType, maintenance, draining) ==
            if maintenance && (runs || commandType == "update_workload")
            then Some("Command '" + commandType + "' blocked: node is in maintenance mode.")
            else if draining && runs then Some("Command '" + commandType + "' blocked: node is draining.") else None
  {
  }
}
