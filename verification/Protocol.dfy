/**
 dispatcher.py as a step system.  Each event is one stretch of `handle` between two awaits, one
 cancellation, or the end of one execution; every interleaving is a sequence of events.
 Result dicts are shared by reference, so they live in a heap and rows hold their addresses.
 */
module Protocol {
  import opened Prelude
  import opened OrderedDict
  import opened StateStore

  type JsonDict = map<string, string>
  type Ref = nat

  /** A normalized result; `code` is empty on success, `result` is the address of the inner dict. */
  datatype Row = Row(success: bool, code: string, message: string, result: Ref)

  /** How an execution ended. */
  datatype Outcome = Returned(result: Ref, original: JsonDict) | Raised(code: string, message: string) | Cancelled
  datatype Status = Running | Done(outcome: Outcome)
  datatype Task = Task(id: string, creator: nat, cancelRequested: bool, status: Status)

  datatype How = Invalid | Replayed | Refused | Ran(task: nat)
  datatype Delivery =
    | Dispatching(id: string)                             // awaiting the "dispatched" progress send
    | Waiting(id: string, task: nat, mustCancel: bool)    // awaiting its asyncio task
    | Finished(id: string, how: How, row: Row)
    | Dead(id: string)                                    // left with CancelledError

  datatype Proto = Proto(tasks: seq<Task>, inflight: map<string, nat>, deliveries: map<nat, Delivery>,
                         rows: Dict<Row>, dicts: seq<JsonDict>)

  datatype Ending = Gives(result: JsonDict) | Fails(code: string, message: string) | IsCancelled

  datatype Event =
    | Begin(delivery: nat, id: string, refusal: Option<string>)
    | Proceed(delivery: nat)
    | ProgressFails(delivery: nat, message: string)
    | Cancel(delivery: nat)
    | Complete(task: nat, ending: Ending)
    | Wake(delivery: nat)

  function Init(rows: Dict<Row>, dicts: seq<JsonDict>): Proto {
    Proto([], map[], map[], rows, dicts)
  }

  predicate Live(s: Proto, t: nat) {
    t < |s.tasks| && s.tasks[t].status.Running?
  }

  /** A failure leaves handle with a row of its own, whose inner dict is new and empty. */
  function Failed(s: Proto, w: nat, id: string, how: How, code: string, message: string): Proto {
    var row := Row(false, code, message, |s.dicts|);
    s.(dicts := s.dicts + [map[]], rows := Remember(s.rows, id, row), deliveries := s.deliveries[w := Finished(id, how, row)])
  }

  function Succeeded(s: Proto, w: nat, id: string, t: nat, result: Ref): Proto {
    var row := Row(true, "", "", result);
    s.(rows := Remember(s.rows, id, row), deliveries := s.deliveries[w := Finished(id, Ran(t), row)])
  }

  /** Lines 59-64: the stored row is returned, and its inner dict is marked. */
  function Replay(s: Proto, w: nat, id: string): Proto
    requires id in ToMap(s.rows)
  {
    var row := ToMap(s.rows)[id];
    s.(deliveries := s.deliveries[w := Finished(id, Replayed, row)],
       dicts := if row.result < |s.dicts| then s.dicts[row.result := s.dicts[row.result]["replayed" := "true"]] else s.dicts)
  }

  /** Lines 47-68, up to the first await. */
  function OnBegin(s: Proto, w: nat, id: string, refusal: Option<string>): Proto {
    if w in s.deliveries then s
    else if id == "" then
      s.(deliveries := s.deliveries[w := Finished(id, Invalid, Row(false, "invalid_command", "Missing command id.", 0))])
    else if id in ToMap(s.rows) then Replay(s, w, id)
    else if refusal.Some? then Failed(s, w, id, Refused, "policy_violation", refusal.value)
    else s.(deliveries := s.deliveries[w := Dispatching(id)])
  }

  /** Lines 128-142: start a run, or join the one in flight. */
  function OnProceed(s: Proto, w: nat): Proto {
    if w !in s.deliveries || !s.deliveries[w].Dispatching? then s
    else
      var id := s.deliveries[w].id;
      if id in s.inflight && Live(s, s.inflight[id])
      then s.(deliveries := s.deliveries[w := Waiting(id, s.inflight[id], false)])
      else s.(tasks := s.tasks + [Task(id, w, false, Running)], inflight := s.inflight[id := |s.tasks|],
              deliveries := s.deliveries[w := Waiting(id, |s.tasks|, false)])
  }

  /** The progress send raised (lines 87-93). */
  function OnProgressFails(s: Proto, w: nat, message: string): Proto {
    if w !in s.deliveries || !s.deliveries[w].Dispatching? then s
    else Failed(s, w, s.deliveries[w].id, Refused, "internal_error", message)
  }

  /** Cancelling a waiter cancels the asyncio task it awaits; if that is done already, the waiter itself is marked. */
  function OnCancel(s: Proto, w: nat): Proto {
    if w !in s.deliveries then s
    else match s.deliveries[w]
      case Dispatching(id) => s.(deliveries := s.deliveries[w := Dead(id)])
      case Waiting(id, t, _) =>
        if Live(s, t) then s.(tasks := s.tasks[t := s.tasks[t].(cancelRequested := true)])
        else s.(deliveries := s.deliveries[w := Waiting(id, t, true)])
      case _ => s
  }

  function OnComplete(s: Proto, t: nat, ending: Ending): Proto {
    if !Live(s, t) then s
    else match ending
      case Gives(result) =>
        s.(dicts := s.dicts + [result], tasks := s.tasks[t := s.tasks[t].(status := Done(Returned(|s.dicts|, result)))])
      case Fails(code, message) => s.(tasks := s.tasks[t := s.tasks[t].(status := Done(Raised(code, message)))])
      case IsCancelled =>
        if s.tasks[t].cancelRequested then s.(tasks := s.tasks[t := s.tasks[t].(status := Done(Cancelled))]) else s
  }

  /** Lines 141-145, then 72-105: the waiter leaves, and only when its task is done. */
  function OnWake(s: Proto, w: nat): Proto {
    if w !in s.deliveries || !s.deliveries[w].Waiting? then s
    else
      var id, t := s.deliveries[w].id, s.deliveries[w].task;
      if t >= |s.tasks| || Live(s, t) then s
      else
        var popped := if id in s.inflight && s.inflight[id] == t then s.(inflight := s.inflight - {id}) else s;
        if s.deliveries[w].mustCancel then popped.(deliveries := s.deliveries[w := Dead(id)])
        else match s.tasks[t].status.outcome
          case Returned(result, _) => Succeeded(popped, w, id, t, result)
          case Raised(code, message) => Failed(popped, w, id, Ran(t), code, message)
          case Cancelled => popped.(deliveries := s.deliveries[w := Dead(id)])
  }

  function Step(s: Proto, e: Event): Proto {
    match e
    case Begin(w, id, refusal) => OnBegin(s, w, id, refusal)
    case Proceed(w) => OnProceed(s, w)
    case ProgressFails(w, message) => OnProgressFails(s, w, message)
    case Cancel(w) => OnCancel(s, w)
    case Complete(t, ending) => OnComplete(s, t, ending)
    case Wake(w) => OnWake(s, w)
  }

  function Run(s: Proto, events: seq<Event>): Proto {
    if events == [] then s else Step(Run(s, events[..|events| - 1]), events[|events| - 1])
  }

  // ---------------------------------------------------------------------------------------------
  // What every step keeps
  // ---------------------------------------------------------------------------------------------

  /** The waiter `w` is still inside `await task` for task number `t`. */
  predicate Awaits(s: Proto, w: nat, t: nat) {
    w in s.deliveries && s.deliveries[w].Waiting? && s.deliveries[w].task == t
  }

  /** The registered task of an id is a task of that id whose creator still awaits it. */
  predicate Registered(s: Proto, id: string) {
    id in s.inflight ==>
      && s.inflight[id] < |s.tasks|
      && s.tasks[s.inflight[id]].id == id
      && Awaits(s, s.tasks[s.inflight[id]].creator, s.inflight[id])
  }

  /** A live task is the one registered for its id. */
  predicate LiveIsRegistered(s: Proto, t: nat) {
    Live(s, t) ==> s.tasks[t].id in s.inflight && s.inflight[s.tasks[t].id] == t
  }

  predicate DeliveryOk(s: Proto, w: nat)
    requires w in s.deliveries
  {
    match s.deliveries[w]
    case Waiting(id, t, m) => t < |s.tasks| && s.tasks[t].id == id && (m ==> !Live(s, t))
    case Finished(id, Ran(t), row) => t < |s.tasks| && s.tasks[t].id == id && row.result < |s.dicts| && Reports(s, t, row)
    case _ => true
  }

  function Unmarked(d: JsonDict): JsonDict {
    d - {"replayed"}
  }

  /** The row says how the run ended; its inner dict is that of the run, or empty, up to the replay mark. */
  predicate Reports(s: Proto, t: nat, row: Row)
    requires t < |s.tasks| && row.result < |s.dicts|
  {
    && s.tasks[t].status.Done?
    && match s.tasks[t].status.outcome
       case Returned(r, original) =>
         row == Row(true, "", "", r) && Unmarked(s.dicts[r]) == Unmarked(original)
       case Raised(code, message) => !row.success && row.code == code && row.message == message && Unmarked(s.dicts[row.result]) == map[]
       case Cancelled => false
  }

  predicate ResultOk(s: Proto, t: nat)
    requires t < |s.tasks|
  {
    s.tasks[t].status.Done? && s.tasks[t].status.outcome.Returned? ==>
      s.tasks[t].status.outcome.result < |s.dicts|
      && Unmarked(s.dicts[s.tasks[t].status.outcome.result]) == Unmarked(s.tasks[t].status.outcome.original)
  }

  predicate TableOk(s: Proto) {
    && Unique(s.rows) && |s.rows| <= MAX_ENTRIES
    && forall id :: id in ToMap(s.rows) ==> ToMap(s.rows)[id].result < |s.dicts|
  }

  ghost predicate Inv(s: Proto) {
    && (forall id :: Registered(s, id))
    && (forall t :: LiveIsRegistered(s, t))
    && (forall w :: w in s.deliveries ==> DeliveryOk(s, w))
    && (forall t :: 0 <= t < |s.tasks| ==> ResultOk(s, t))
    && TableOk(s)
  }
}
