/** StreamClient: the stretches of _handle_command between awaits, around the real dispatcher and the send lock. */
module StreamClient {
  import opened StateStore
  import opened Protocol
  import opened Dispatcher
  import S = Stream
  import W = Wire
  import Text
  import PolicyGuard

  class StreamClient {
    const dispatcher: CommandDispatcher
    const sender: W.Sender<Row>
    var stages: map<nat, S.Stage>
    var logs: map<nat, seq<S.Frame>>

    function Abs(): S.Stream
      reads this, dispatcher, dispatcher.store
    {
      S.Stream(dispatcher.Abs(), stages, logs)
    }

    /** Between two sends: the lock is free, and numbers have left in increasing order. */
    ghost predicate Valid()
      reads this, dispatcher, dispatcher.store, sender
    {
      && sender.store == dispatcher.store
      && dispatcher.Valid() && S.InStep(Abs())
      && sender.holder.None? && W.InOrder(sender.Abs())
    }

    constructor (dispatcher: CommandDispatcher)
      requires dispatcher.Valid() && dispatcher.deliveries == map[]
      ensures Valid() && this.dispatcher == dispatcher && fresh(sender)
      ensures Abs() == S.Start(dispatcher.Abs()) && sender.sent == []
    {
      this.dispatcher, stages, logs := dispatcher, map[], map[];
      sender := new W.Sender<Row>(dispatcher.store);
    }

    /**
     _send_json: take the lock and the next number, send, release the lock.  The frame of delivery `w`
     leaves with that number, or the send raises and the number is never used.
     */
    method SendJson(w: nat, frame: S.Frame, sent: bool)
      requires dispatcher.store.Valid() && sender.store == dispatcher.store && sender.holder.None? && W.InOrder(sender.Abs())
      modifies this`logs, sender, dispatcher.store`state
      ensures dispatcher.store.Valid() && sender.holder.None? && W.InOrder(sender.Abs())
      ensures sender.Abs() == W.Step(W.Step(old(sender.Abs()), W.Stamp), if sent then W.Left else W.Raised)
      ensures dispatcher.Abs() == old(dispatcher.Abs())
      ensures dispatcher.store.state == old(dispatcher.store.state).(txSeq := dispatcher.store.state.txSeq)
      ensures logs == if sent then old(logs)[w := (if w in old(logs) then old(logs)[w] else []) + [frame]] else old(logs)
    {
      W.StepKeepsOrder(sender.Abs(), W.Stamp);
      W.StepKeepsOrder(W.Step(sender.Abs(), W.Stamp), if sent then W.Left else W.Raised);
      var _ := sender.Begin();
      sender.End(sent);
      if sent {
        logs := logs[w := (if w in logs then logs[w] else []) + [frame]];
      }
    }

    /** A delivery's first frame. */
    method SendFirst(w: nat, frame: S.Frame, stage: S.Stage, sent: bool)
      requires Valid() && w !in logs
      modifies this, sender, dispatcher.store`state
      ensures dispatcher.store.Valid() && sender.holder.None? && W.InOrder(sender.Abs())
      ensures sender.Abs() == W.Step(W.Step(old(sender.Abs()), W.Stamp), if sent then W.Left else W.Raised)
      ensures dispatcher.Abs() == old(dispatcher.Abs())
      ensures stages == old(stages)[w := stage] && logs == old(logs)[w := if sent then [frame] else []]
    {
      SendJson(w, frame, sent);
      logs := logs[w := if sent then [frame] else []];
      stages := stages[w := stage];
    }

    /** Lines 184-234: check the signature and the age, then acknowledge or reject. */
    method HandleCommand(w: nat, c: S.Command, sent: bool)
      requires Valid() && w !in stages && w !in dispatcher.deliveries && w !in logs
      modifies this, sender, dispatcher.store`state
      ensures Valid() && Abs() == S.OnArrive(old(Abs()), w, c, sent)
    {
      S.ArriveInStep(Abs(), w, c, sent);
      var id := Text.Trim(Text.PySpace, c.rawId);
      if id == "" {
        logs, stages := logs[w := []], stages[w := S.Silent];
      } else if c.signature == S.Bad {
        SendFirst(w, S.Rejected("signature_invalid"), S.TurnedAway("signature_invalid", sent), sent);
      } else if !c.redispatch && !c.recent {
        SendFirst(w, S.Rejected("command_expired"), S.TurnedAway("command_expired", sent), sent);
      } else {
        SendFirst(w, S.Ack, if sent then S.Acked(id) else S.Broken, sent);
      }
    }

    /** Line 247: the acknowledgement is out; enter the dispatcher. */
    method AfterAck(w: nat, rawId: string, commandType: string, io: SaveIo)
      requires Valid() && w in stages && stages[w] == S.Acked(Text.Trim(Text.PySpace, rawId)) && w !in dispatcher.deliveries
      modifies this, dispatcher, dispatcher.store
      ensures Valid()
      ensures Abs() == S.OnEnter(old(Abs()), w, PolicyGuard.Refusal(commandType, old(dispatcher.store.state).maintenance,
                                                                    old(dispatcher.store.state).draining))
    {
      S.EnterInStep(Abs(), w, PolicyGuard.Refusal(commandType, dispatcher.store.state.maintenance, dispatcher.store.state.draining));
      stages := stages[w := S.InHandle(stages[w].id)];
      dispatcher.Handle(w, rawId, commandType, io);
    }

    /** Lines 236-245: the "dispatched" progress send is over. */
    method AfterDispatch(w: nat, sent: bool, message: string, io: SaveIo)
      requires Valid() && w in dispatcher.deliveries && dispatcher.deliveries[w].Dispatching? && w in logs
      modifies this, sender, dispatcher, dispatcher.store
      ensures Valid() && Abs() == S.OnDispatch(old(Abs()), w, sent, message)
    {
      S.DispatchInStep(Abs(), w, sent, message);
      SendJson(w, S.Progress, sent);
      if sent {
        dispatcher.GuardedExecute(w);
      } else {
        dispatcher.ProgressRaised(w, message, io);
      }
    }

    /**
     A running command calls the emit_progress of the delivery that started it.  When the send raises,
     nothing is on the wire, and the exception is the run's to handle: it goes on or ends by EndRun.
     */
    method EmitProgress(t: nat, sent: bool)
      requires Valid() && Live(dispatcher.Abs(), t) && dispatcher.tasks[t].creator in logs
      modifies this, sender, dispatcher.store`state
      ensures Valid() && Abs() == if sent then S.OnTaskProgress(old(Abs()), t) else old(Abs())
    {
      S.TaskProgressInStep(Abs(), t);
      SendJson(dispatcher.tasks[t].creator, S.Progress, sent);
    }

    /** The run ends. */
    method EndRun(t: nat, ending: Ending)
      requires Valid() && Live(dispatcher.Abs(), t) && (ending.IsCancelled? ==> dispatcher.tasks[t].cancelRequested)
      modifies dispatcher
      ensures Valid() && Abs() == S.Step(old(Abs()), S.TaskEnds(t, ending)) && !Live(dispatcher.Abs(), t)
    {
      S.TaskEndsInStep(Abs(), t, ending);
      dispatcher.EndRun(t, ending);
    }

    /** The coroutine of a delivery is cancelled: at a send of its own, or inside `handle`. */
    method CancelDelivery(w: nat)
      requires Valid() && w in stages && (stages[w].Acked? || stages[w].InHandle?)
      modifies this, dispatcher
      ensures Valid() && Abs() == S.OnCancels(old(Abs()), w)
    {
      S.CancelsInStep(Abs(), w);
      assert S.StageOk(Abs(), w);
      if stages[w].Acked? || dispatcher.deliveries[w].Finished? {
        stages := stages[w := S.Broken];
      } else if !dispatcher.deliveries[w].Dead? {
        dispatcher.CancelDelivery(w);
      }
    }

    /** The awaited run is over, and `handle` returns or raises. */
    method AfterTask(w: nat, io: SaveIo)
      requires Valid() && w in dispatcher.deliveries && dispatcher.deliveries[w].Waiting?
      requires !Live(dispatcher.Abs(), dispatcher.deliveries[w].task)
      modifies this, dispatcher, dispatcher.store
      ensures Valid() && Abs() == S.Step(old(Abs()), S.Wakes(w))
    {
      S.WakesInStep(Abs(), w);
      dispatcher.AfterTask(w, io);
    }

    /** Lines 248-256: report the result. */
    method SendResult(w: nat, sent: bool)
      requires Valid() && S.Answerable(Abs(), w) && w in logs
      modifies this, sender, dispatcher.store`state
      ensures Valid() && Abs() == S.OnAnswer(old(Abs()), w, sent)
    {
      S.AnswerInStep(Abs(), w, sent);
      SendJson(w, S.Result(dispatcher.deliveries[w].row), sent);
      stages := stages[w := if sent then S.Answered(stages[w].id) else S.Broken];
    }
  }
}
