/** Which commands a connection accepts, and what the frames of a delivery can no longer become. */
module Admission {
  import opened Prelude
  import opened Protocol
  import opened ProtocolInvariant
  import opened Stream
  import S = Stream
  import Text

  /** The id without the whitespace around it. */
  function IdOf(c: Command): string {
    Text.Trim(Text.PySpace, c.rawId)
  }

  /** The dispatcher knows the delivery, if it does, under this id; and its place on the connection agrees. */
  predicate AcceptedAs(s: Stream, w: nat, id: string) {
    && w in s.stages
    && (w in s.p.deliveries ==> s.p.deliveries[w].id == id)
    && match s.stages[w]
       case Acked(i) => i == id
       case InHandle(i) => i == id
       case Answered(i) => i == id
       case Broken => true
       case _ => false
  }

  /**
   What becomes of a delivery, by the fields of its command: a blank id is dropped without a word; a bad
   signature is rejected, whatever the age; so is an old command that is no re-dispatch; every other one is
   acknowledged and goes to the dispatcher under its id.
   */
  predicate Fate(s: Stream, w: nat, c: Command, sent: bool) {
    && w in s.stages && w in s.logs
    && if IdOf(c) == "" then s.stages[w] == Silent && s.logs[w] == [] && w !in s.p.deliveries
       else if c.signature == Bad then
         s.logs[w] == (if sent then [Rejected("signature_invalid")] else []) && s.stages[w].TurnedAway? && w !in s.p.deliveries
       else if !c.redispatch && !c.recent then
         s.logs[w] == (if sent then [Rejected("command_expired")] else []) && s.stages[w].TurnedAway? && w !in s.p.deliveries
       else
         && AcceptedAs(s, w, IdOf(c))
         && (if sent then s.logs[w] != [] && s.logs[w][0] == Ack else s.stages[w] == Broken && s.logs[w] == [] && w !in s.p.deliveries)
  }

  lemma ArrivalSealsFate(s: Stream, w: nat, c: Command, sent: bool)
    requires InStep(s) && w !in s.stages
    ensures Fate(OnArrive(s, w, c, sent), w, c, sent)
  {
    assert Known(s, w);
  }

  /** Once a delivery has arrived its frames only grow at the end, and nothing brings a rejected or broken one back. */
  lemma FramesOnlyGrow(s: Stream, m: Move, w: nat)
    requires InStep(s) && w in s.stages
    ensures var q := S.Step(s, m);
            && w in q.stages && w in s.logs && w in q.logs && s.logs[w] <= q.logs[w]
            && (s.stages[w].Silent? || s.stages[w].TurnedAway? || s.stages[w].Broken? || s.stages[w].Answered? ==>
                  q.stages[w] == s.stages[w] && q.logs[w] == s.logs[w])
  {
    assert StageOk(s, w);
    match m
    case TaskProgress(t) =>
      if Live(s.p, t) {
        assert LiveIsRegistered(s.p, t) && Registered(s.p, s.p.tasks[t].id);
        assert Known(s, s.p.tasks[t].creator) && StageOk(s, s.p.tasks[t].creator);
      }
    case Dispatch(v, _, _) => assert Known(s, v);
    case _ =>
  }

  lemma DeliveriesKeepIds(p: Proto, e: Event, w: nat)
    requires w in p.deliveries
    ensures w in Protocol.Step(p, e).deliveries && Protocol.Step(p, e).deliveries[w].id == p.deliveries[w].id
  {
  }

  lemma OnlyBeginAdds(p: Proto, e: Event, w: nat)
    requires w !in p.deliveries && w in Protocol.Step(p, e).deliveries
    ensures e.Begin? && e.delivery == w && (e.id != "" ==> Protocol.Step(p, e).deliveries[w].id == e.id)
  {
  }

  /** A delivery comes to the dispatcher by its own step only, from the acknowledged stage. */
  lemma EntersByItself(s: Stream, m: Move, w: nat)
    requires InStep(s) && w in s.stages && w !in s.p.deliveries && w in S.Step(s, m).p.deliveries
    ensures s.stages[w].Acked? && S.Step(s, m).p.deliveries[w].id == s.stages[w].id
  {
    assert StageOk(s, w);
    if !m.Cancels? {
      ByEvent(s, m);
      OnlyBeginAdds(s.p, EventOf(s, m).value, w);
    }
  }

  lemma KeepsId(s: Stream, m: Move, w: nat)
    requires InStep(s) && w in s.p.deliveries
    ensures w in S.Step(s, m).p.deliveries && S.Step(s, m).p.deliveries[w].id == s.p.deliveries[w].id
  {
    if m.Cancels? {
      DeliveriesKeepIds(s.p, Cancel(m.delivery), w);
    } else {
      ByEvent(s, m);
      if EventOf(s, m).Some? {
        DeliveriesKeepIds(s.p, EventOf(s, m).value, w);
      }
    }
  }

  lemma StageGoesOn(s: Stream, m: Move, w: nat, id: string)
    requires InStep(s) && AcceptedAs(s, w, id)
    ensures w in S.Step(s, m).stages && AcceptedAs(S.Step(s, m).(p := s.p), w, id)
  {
  }

  lemma FateStays(s: Stream, m: Move, w: nat, c: Command, sent: bool)
    requires InStep(s) && Fate(s, w, c, sent)
    ensures Fate(S.Step(s, m), w, c, sent)
  {
    FramesOnlyGrow(s, m, w);
    if w in s.p.deliveries {
      KeepsId(s, m, w);
    } else if w in S.Step(s, m).p.deliveries {
      EntersByItself(s, m, w);
    }
    if AcceptedAs(s, w, IdOf(c)) {
      StageGoesOn(s, m, w, IdOf(c));
    }
  }

  lemma {:induction false} NotArrivedYet(p: Proto, moves: seq<Move>, w: nat)
    requires Inv(p) && p.deliveries == map[] && forall i :: 0 <= i < |moves| ==> !(moves[i].Arrive? && moves[i].delivery == w)
    ensures w !in S.Run(Start(p), moves).stages
  {
    if moves != [] {
      NotArrivedYet(p, moves[..|moves| - 1], w);
    }
  }

  /**
   In every run, from its first arrival on a delivery has the fate its command's id, signature, age and
   re-dispatch mark decide: it enters the dispatcher, or has an acknowledgement on the wire, only if the
   signature is not bad and the command is recent or a re-dispatch; and with the frame sent, if and only if.
   */
  lemma {:induction false} FateIsDecidedOnArrival(p: Proto, moves: seq<Move>, k: nat, w: nat, c: Command, sent: bool)
    requires Inv(p) && p.deliveries == map[]
    requires k < |moves| && moves[k] == Arrive(w, c, sent)
    requires forall i :: 0 <= i < k ==> !(moves[i].Arrive? && moves[i].delivery == w)
    ensures Fate(S.Run(Start(p), moves), w, c, sent)
  {
    var n := |moves| - 1;
    var s := S.Run(Start(p), moves[..n]);
    RunInStep(p, moves[..n]);
    if k == n {
      NotArrivedYet(p, moves[..n], w);
      ArrivalSealsFate(s, w, c, sent);
    } else {
      FateIsDecidedOnArrival(p, moves[..n], k, w, c, sent);
      FateStays(s, moves[n], w, c, sent);
    }
  }

  /** The same as an if-and-only-if about the command's fields alone. */
  lemma AcceptedIff(p: Proto, moves: seq<Move>, k: nat, w: nat, c: Command, sent: bool)
    requires Inv(p) && p.deliveries == map[]
    requires k < |moves| && moves[k] == Arrive(w, c, sent) && IdOf(c) != ""
    requires forall i :: 0 <= i < k ==> !(moves[i].Arrive? && moves[i].delivery == w)
    ensures var s := S.Run(Start(p), moves);
            && w in s.logs
            && (w in s.p.deliveries || Ack in s.logs[w] ==> c.signature != Bad && (c.redispatch || c.recent))
            && (sent ==> (Ack in s.logs[w] <==> c.signature != Bad && (c.redispatch || c.recent)))
            && (sent && c.signature == Bad ==> s.logs[w] == [Rejected("signature_invalid")])
            && (sent && c.signature != Bad && !c.redispatch && !c.recent ==> s.logs[w] == [Rejected("command_expired")])
            && (w in s.p.deliveries ==> s.p.deliveries[w].id == IdOf(c))
  {
    FateIsDecidedOnArrival(p, moves, k, w, c, sent);
    var s := S.Run(Start(p), moves);
    if sent && c.signature != Bad && (c.redispatch || c.recent) {
      assert s.logs[w][0] in s.logs[w];
    }
  }

  /** A running command's progress is one more frame for the delivery that started it, and nothing for any other. */
  lemma ProgressIsHeard(s: Stream, t: nat)
    requires InStep(s) && Live(s.p, t)
    ensures var w, q := s.p.tasks[t].creator, OnTaskProgress(s, t);
            && w in s.logs && q.logs == s.logs[w := s.logs[w] + [Progress]] && q.stages == s.stages && q.p == s.p
  {
    assert LiveIsRegistered(s.p, t) && Registered(s.p, s.p.tasks[t].id);
    assert Known(s, s.p.tasks[t].creator) && StageOk(s, s.p.tasks[t].creator);
  }

  /** A send of the delivery's own that raises or is cancelled is the last thing heard of it. */
  lemma FailedSendIsTheEnd(s: Stream, w: nat, moves: seq<Move>)
    requires InStep(s) && w in s.stages && (s.stages[w].Acked? || Answerable(s, w))
    ensures var q := S.Run(OnCancels(s, w), moves); w in q.logs && w in s.logs && q.logs[w] == s.logs[w]
    ensures Answerable(s, w) ==> var q := S.Run(OnAnswer(s, w, false), moves); w in q.logs && q.logs[w] == s.logs[w]
  {
    assert StageOk(s, w);
    CancelsInStep(s, w);
    BrokenForGood(OnCancels(s, w), w, moves);
    if Answerable(s, w) {
      AnswerInStep(s, w, false);
      BrokenForGood(OnAnswer(s, w, false), w, moves);
    }
  }

  lemma {:induction false} BrokenForGood(s: Stream, w: nat, moves: seq<Move>)
    requires InStep(s) && w in s.stages && s.stages[w].Broken?
    ensures var q := S.Run(s, moves); InStep(q) && w in q.stages && q.stages[w].Broken? && w in q.logs && w in s.logs && q.logs[w] == s.logs[w]
  {
    assert StageOk(s, w);
    if moves != [] {
      var n := |moves| - 1;
      BrokenForGood(s, w, moves[..n]);
      FramesOnlyGrow(S.Run(s, moves[..n]), moves[n], w);
      StepInStep(S.Run(s, moves[..n]), moves[n]);
    }
  }
}
