/** CommandDispatcher: the stretches of `handle` between awaits, on the real tables. */
module Dispatcher {
  import opened OrderedDict
  import opened StateStore
  import opened Protocol
  import opened ProtocolInvariant
  import PolicyGuard
  import Text

  class CommandDispatcher {
    const store: Store<Row>
    var inflight: map<string, nat>
    var tasks: seq<Task>
    var deliveries: map<nat, Delivery>
    var dicts: seq<JsonDict>

    function Abs(): Proto
      reads this, store
    {
      Proto(tasks, inflight, deliveries, store.state.completed, dicts)
    }

    ghost predicate Valid()
      reads this, store
    {
      Inv(Abs()) && store.Valid()
    }

    constructor (store: Store<Row>, dicts: seq<JsonDict>)
      requires store.Valid() && Inv(Init(store.state.completed, dicts))
      ensures Valid() && this.store == store && Abs() == Init(store.state.completed, dicts)
    {
      this.store, this.dicts := store, dicts;
      inflight, tasks, deliveries := map[], [], map[];
    }

    /** Lines 73-105: keep the row, then hand it to the delivery. */
    method Return(w: nat, id: string, how: How, row: Row, io: SaveIo)
      requires store.Valid()
      modifies this`deliveries, store
      ensures store.Valid()
      ensures Abs() == old(Abs()).(rows := Remember(old(store.state.completed), id, row),
                                   deliveries := old(deliveries)[w := Finished(id, how, row)])
      ensures store.state.txSeq == old(store.state.txSeq)
    {
      store.RememberCommandResult(id, row, io);
      deliveries := deliveries[w := Finished(id, how, row)];
    }

    method ReturnFailure(w: nat, id: string, how: How, code: string, message: string, io: SaveIo)
      requires store.Valid()
      modifies this`deliveries, this`dicts, store
      ensures store.Valid() && Abs() == Failed(old(Abs()), w, id, how, code, message)
      ensures store.state.txSeq == old(store.state.txSeq)
    {
      dicts := dicts + [map[]];
      Return(w, id, how, Row(false, code, message, |dicts| - 1), io);
    }

    /** Lines 47-68: look for a stored row, ask the guard, send "dispatched". */
    method Handle(w: nat, rawId: string, commandType: string, io: SaveIo)
      requires Valid() && w !in deliveries
      modifies this, store
      ensures Valid()
      ensures Abs() == OnBegin(old(Abs()), w, Text.Trim(Text.PySpace, rawId),
                               PolicyGuard.Refusal(commandType, old(store.state).maintenance, old(store.state).draining))
      ensures store.state.txSeq == old(store.state.txSeq)
    {
      ghost var s := Abs();
      var id := Text.Trim(Text.PySpace, rawId);
      BeginKeepsInv(s, w, id, PolicyGuard.Refusal(commandType, store.state.maintenance, store.state.draining));
      if id == "" {
        deliveries := deliveries[w := Finished(id, Invalid, Row(false, "invalid_command", "Missing command id.", 0))];
      } else if id in ToMap(store.state.completed) {
        var row := ToMap(store.state.completed)[id];
        if row.result < |dicts| {
          dicts := dicts[row.result := dicts[row.result]["replayed" := "true"]];
        }
        deliveries := deliveries[w := Finished(id, Replayed, row)];
      } else {
        var refusal := PolicyGuard.Refusal(commandType, store.state.maintenance, store.state.draining);
        if refusal.Some? {
          ReturnFailure(w, id, Refused, "policy_violation", refusal.value, io);
        } else {
          deliveries := deliveries[w := Dispatching(id)];
        }
      }
    }

    /** Lines 128-142: the send returned; start a run or join the one in flight, and await it. */
    method GuardedExecute(w: nat)
      requires Valid() && w in deliveries && deliveries[w].Dispatching?
      modifies this
      ensures Valid() && Abs() == OnProceed(old(Abs()), w)
    {
      ProceedKeepsInv(Abs(), w);
      var id := deliveries[w].id;
      var task: nat;
      if id !in inflight || !(inflight[id] < |tasks| && tasks[inflight[id]].status.Running?) {
        task := |tasks|;
        tasks := tasks + [Task(id, w, false, Running)];
        inflight := inflight[id := task];
      } else {
        task := inflight[id];
      }
      deliveries := deliveries[w := Waiting(id, task, false)];
    }

    /** Lines 87-93: the send raised. */
    method ProgressRaised(w: nat, message: string, io: SaveIo)
      requires Valid() && w in deliveries && deliveries[w].Dispatching?
      modifies this, store
      ensures Valid() && Abs() == OnProgressFails(old(Abs()), w, message)
      ensures store.state.txSeq == old(store.state.txSeq)
    {
      ProgressFailsKeepsInv(Abs(), w, message);
      ReturnFailure(w, deliveries[w].id, Refused, "internal_error", message, io);
    }

    /** Lines 141-145 and 72-105: the awaited task is done. */
    method AfterTask(w: nat, io: SaveIo)
      requires Valid() && w in deliveries && deliveries[w].Waiting? && !Live(Abs(), deliveries[w].task)
      modifies this, store
      ensures Valid() && Abs() == OnWake(old(Abs()), w)
      ensures store.state.txSeq == old(store.state.txSeq)
    {
      WakeKeepsInv(Abs(), w);
      assert DeliveryOk(Abs(), w);
      var id, t, mustCancel := deliveries[w].id, deliveries[w].task, deliveries[w].mustCancel;
      if id in inflight && inflight[id] == t {
        inflight := inflight - {id};
      }
      if mustCancel {
        deliveries := deliveries[w := Dead(id)];
      } else {
        match tasks[t].status.outcome
        case Returned(result, _) => Return(w, id, Ran(t), Row(true, "", "", result), io);
        case Raised(code, message) => ReturnFailure(w, id, Ran(t), code, message, io);
        case Cancelled => deliveries := deliveries[w := Dead(id)];
      }
    }

    /** _execute ends: it returns a dict, raises, or stops because it was asked to. */
    method EndRun(t: nat, ending: Ending)
      requires Valid() && Live(Abs(), t) && (ending.IsCancelled? ==> tasks[t].cancelRequested)
      modifies this
      ensures Valid() && Abs() == OnComplete(old(Abs()), t, ending) && !Live(Abs(), t)
    {
      CompleteKeepsInv(Abs(), t, ending);
      match ending
      case Gives(result) =>
        dicts := dicts + [result];
        tasks := tasks[t := tasks[t].(status := Done(Returned(|dicts| - 1, result)))];
      case Fails(code, message) =>
        tasks := tasks[t := tasks[t].(status := Done(Raised(code, message)))];
      case IsCancelled =>
        tasks := tasks[t := tasks[t].(status := Done(Cancelled))];
    }

    /** The coroutine of a delivery inside `handle` is cancelled at its await. */
    method CancelDelivery(w: nat)
      requires Valid() && w in deliveries && (deliveries[w].Dispatching? || deliveries[w].Waiting?)
      modifies this
      ensures Valid() && Abs() == OnCancel(old(Abs()), w)
    {
      CancelKeepsInv(Abs(), w);
      match deliveries[w]
      case Dispatching(id) => deliveries := deliveries[w := Dead(id)];
      case Waiting(id, t, _) =>
        if t < |tasks| && tasks[t].status.Running? {
          tasks := tasks[t := tasks[t].(cancelRequested := true)];
        } else {
          deliveries := deliveries[w := Waiting(id, t, true)];
        }
    }
  }
}
