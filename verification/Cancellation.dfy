/** What cancelling one delivery does to the run it awaits and to the other waiters of that run. */
module Cancellation {
  import opened Prelude
  import opened Protocol
  import opened ProtocolInvariant
  import opened ProtocolTheorems

  /** A waiter of a finished run leaves with a row exactly when it was not cancelled after the end and the run did not end cancelled. */
  lemma LeavesWithRowIff(s: Proto, w: nat)
    requires Inv(s) && w in s.deliveries && s.deliveries[w].Waiting? && !Live(s, s.deliveries[w].task)
    ensures var t, q := s.deliveries[w].task, OnWake(s, w);
            && t < |s.tasks| && s.tasks[t].status.Done? && w in q.deliveries
            && (q.deliveries[w].Finished? <==> !s.deliveries[w].mustCancel && !s.tasks[t].status.outcome.Cancelled?)
            && (!q.deliveries[w].Finished? ==> q.deliveries[w] == Dead(s.deliveries[w].id) && q.rows == s.rows)
  {
    assert DeliveryOk(s, w);
  }

  /** The event cancels a waiter of the unfinished run `t`. */
  predicate CancelsRun(s: Proto, e: Event, t: nat) {
    e.Cancel? && Awaits(s, e.delivery, t) && Live(s, t)
  }

  predicate CancelledAt(s: Proto, events: seq<Event>, k: nat, t: nat)
    requires k < |events|
  {
    CancelsRun(Run(s, events[..k]), events[k], t)
  }

  /** Some waiter of the run was cancelled while the run was unfinished. */
  predicate WaiterCancelled(s: Proto, events: seq<Event>, t: nat) {
    exists k: nat :: k < |events| && CancelledAt(s, events, k, t)
  }

  lemma WaiterCancelledSnoc(s: Proto, events: seq<Event>, t: nat)
    requires events != []
    ensures var n := |events| - 1;
            WaiterCancelled(s, events, t) <==> WaiterCancelled(s, events[..n], t) || CancelsRun(Run(s, events[..n]), events[n], t)
  {
    var n := |events| - 1;
    forall k: nat | k < n
      ensures CancelledAt(s, events, k, t) <==> CancelledAt(s, events[..n], k, t)
    {
      assert events[..k] == events[..n][..k];
    }
    assert CancelledAt(s, events, n, t) <==> CancelsRun(Run(s, events[..n]), events[n], t);
    if WaiterCancelled(s, events[..n], t) {
      var k: nat :| k < n && CancelledAt(s, events[..n], k, t);
      assert CancelledAt(s, events, k, t);
    }
  }

  predicate Requested(s: Proto, t: nat) {
    t < |s.tasks| && s.tasks[t].cancelRequested
  }

  predicate EndedCancelled(s: Proto, t: nat) {
    t < |s.tasks| && s.tasks[t].status == Done(Cancelled)
  }

  lemma StepRequests(s: Proto, e: Event, t: nat)
    requires EndedCancelled(s, t) ==> Requested(s, t)
    ensures Requested(Step(s, e), t) <==> Requested(s, t) || CancelsRun(s, e, t)
    ensures EndedCancelled(Step(s, e), t) ==> Requested(Step(s, e), t)
  {
  }

  /**
   A run is asked to stop exactly when some waiter of it, its creator or one that joined, is cancelled
   while it is unfinished; and only a run that was asked to stop ends cancelled.
   */
  lemma {:induction false} RunStoppedIffWaiterCancelled(s: Proto, events: seq<Event>, t: nat)
    requires s.tasks == []
    ensures var q := Run(s, events);
            && (Requested(q, t) <==> WaiterCancelled(s, events, t))
            && (EndedCancelled(q, t) ==> WaiterCancelled(s, events, t))
  {
    if events != [] {
      var n := |events| - 1;
      RunStoppedIffWaiterCancelled(s, events[..n], t);
      WaiterCancelledSnoc(s, events, t);
      StepRequests(Run(s, events[..n]), events[n], t);
    }
  }

  predicate Marked(s: Proto, w: nat) {
    w in s.deliveries && s.deliveries[w].Waiting? && s.deliveries[w].mustCancel
  }

  lemma StepMarks(s: Proto, e: Event, w: nat)
    requires !Marked(s, w) && e != Cancel(w)
    ensures !Marked(Step(s, e), w)
  {
  }

  lemma {:induction false} MarkedByOwnCancel(s: Proto, events: seq<Event>, w: nat)
    requires s.deliveries == map[] && Cancel(w) !in events
    ensures !Marked(Run(s, events), w)
  {
    if events != [] {
      var n := |events| - 1;
      MarkedByOwnCancel(s, events[..n], w);
      assert events[n] in events;
      StepMarks(Run(s, events[..n]), events[n], w);
    }
  }

  /**
   A delivery that was never cancelled itself returns a row from the run it awaits exactly when that run
   did not end cancelled, and the run ends cancelled only if another waiter was cancelled meanwhile.
   */
  lemma UncancelledWaiterReturnsIff(s: Proto, events: seq<Event>, w: nat)
    requires Inv(s) && s.deliveries == map[] && s.tasks == [] && Cancel(w) !in events
    requires var q := Run(s, events); w in q.deliveries && q.deliveries[w].Waiting? && !Live(q, q.deliveries[w].task)
    ensures var q := Run(s, events);
            var t := q.deliveries[w].task;
            && w in OnWake(q, w).deliveries
            && (OnWake(q, w).deliveries[w].Finished? <==> !EndedCancelled(q, t))
            && (EndedCancelled(q, t) ==> exists k: nat :: k < |events| && CancelledAt(s, events, k, t) && events[k].delivery != w)
  {
    var q := Run(s, events);
    RunKeepsInv(s, events);
    MarkedByOwnCancel(s, events, w);
    LeavesWithRowIff(q, w);
    var t := q.deliveries[w].task;
    RunStoppedIffWaiterCancelled(s, events, t);
    if EndedCancelled(q, t) {
      var k: nat :| k < |events| && CancelledAt(s, events, k, t);
      assert events[k] in events;
    }
  }

  lemma WakeLeavesOthers(s: Proto, v: nat, w: nat)
    requires v != w
    ensures OnWake(s, v).tasks == s.tasks
    ensures w in s.deliveries ==> w in OnWake(s, v).deliveries && OnWake(s, v).deliveries[w] == s.deliveries[w]
  {
  }

  /**
   Any two deliveries that wait for one finished run and were never cancelled themselves leave alike,
   whichever wakes first: both with the same outcome, or, exactly when another waiter's cancellation has
   made the run end cancelled, both without a row.
   */
  lemma UncancelledWaitersAgree(s: Proto, events: seq<Event>, v: nat, w: nat, t: nat)
    requires Inv(s) && s.deliveries == map[] && s.tasks == [] && v != w && Cancel(v) !in events && Cancel(w) !in events
    requires Awaits(Run(s, events), v, t) && Awaits(Run(s, events), w, t) && !Live(Run(s, events), t)
    ensures var q := Run(s, events);
            var r := OnWake(OnWake(q, v), w);
            && v in r.deliveries && w in r.deliveries
            && (if EndedCancelled(q, t) then r.deliveries[v].Dead? && r.deliveries[w].Dead?
                else r.deliveries[v].Finished? && r.deliveries[w].Finished? && SameContent(r, r.deliveries[v].row, r.deliveries[w].row))
  {
    var q := Run(s, events);
    var p := OnWake(q, v);
    var r := OnWake(p, w);
    RunKeepsInv(s, events);
    MarkedByOwnCancel(s, events, v);
    MarkedByOwnCancel(s, events, w);
    LeavesWithRowIff(q, v);
    WakeLeavesOthers(q, v, w);
    WakeKeepsInv(q, v);
    LeavesWithRowIff(p, w);
    WakeLeavesOthers(p, w, v);
    WakeKeepsInv(p, w);
    if !EndedCancelled(q, t) {
      RanBy(q, v);
      RanBy(p, w);
      SameRun(r, v, w, t);
    }
  }

  lemma RanBy(s: Proto, w: nat)
    requires w in OnWake(s, w).deliveries && OnWake(s, w).deliveries[w].Finished? && w in s.deliveries && s.deliveries[w].Waiting?
    ensures OnWake(s, w).deliveries[w].how == Ran(s.deliveries[w].task)
  {
  }

  const JOINED := [Begin(0, "c", None), Begin(1, "c", None), Proceed(0), Proceed(1)]

  lemma {:induction false} RunAppend(s: Proto, a: seq<Event>, b: seq<Event>)
    ensures Run(s, a + b) == Run(Run(s, a), b)
  {
    if b == [] {
      assert a + b == a;
    } else {
      RunAppend(s, a, b[..|b| - 1]);
      assert (a + b)[..|a + b| - 1] == a + b[..|b| - 1];
    }
  }

  lemma RunTwo(s: Proto, a: Event, b: Event)
    ensures Run(s, [a, b]) == Step(Step(s, a), b)
  {
    assert [a, b][..1] == [a] && [a][..0] == [];
    assert Run(s, []) == s && Run(s, [a]) == Step(s, a);
  }

  lemma JoinedState()
    ensures var s := Run(Init([], []), JOINED);
            && s == Proto([Task("c", 0, false, Running)], map["c" := 0], map[0 := Waiting("c", 0, false), 1 := Waiting("c", 0, false)], [], [])
  {
    var s := Init([], []);
    RunAppend(s, [Begin(0, "c", None), Begin(1, "c", None)], [Proceed(0), Proceed(1)]);
    assert JOINED == [Begin(0, "c", None), Begin(1, "c", None)] + [Proceed(0), Proceed(1)];
    RunTwo(s, Begin(0, "c", None), Begin(1, "c", None));
    var two := s.(deliveries := map[0 := Dispatching("c"), 1 := Dispatching("c")]);
    assert Step(Step(s, Begin(0, "c", None)), Begin(1, "c", None)) == two;
    RunTwo(two, Proceed(0), Proceed(1));
    var one := Proto([Task("c", 0, false, Running)], map["c" := 0], map[0 := Waiting("c", 0, false), 1 := Dispatching("c")], [], []);
    assert OnProceed(two, 0) == one;
  }

  /** Two deliveries share a run; cancelling the first leaves the second, which nobody cancelled, without a row. */
  lemma JoinerLosesItsRow()
    ensures var q := Run(Init([], []), JOINED + [Cancel(0), Complete(0, IsCancelled), Wake(1)]);
            1 in q.deliveries && q.deliveries[1] == Dead("c") && q.rows == []
  {
    JoinedState();
    var s := Run(Init([], []), JOINED);
    var rest := [Cancel(0), Complete(0, IsCancelled), Wake(1)];
    RunAppend(Init([], []), JOINED, rest);
    assert rest[..2] == [Cancel(0), Complete(0, IsCancelled)];
    RunTwo(s, Cancel(0), Complete(0, IsCancelled));
    assert OnCancel(s, 0) == s.(tasks := [Task("c", 0, true, Running)]);
    assert OnComplete(OnCancel(s, 0), 0, IsCancelled) == s.(tasks := [Task("c", 0, true, Done(Cancelled))]);
  }
}
