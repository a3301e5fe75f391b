/**
 stream_client.py, _handle_command: which frames each delivery of a command puts on its connection, on
 top of every interleaving of the command protocol.
 */
module Stream {
  import opened Prelude
  import opened Protocol
  import opened ProtocolInvariant
  import Text

  datatype Signature = Absent | Good | Bad

  /** `recent` is the outcome of validate_command_age; `redispatch` is set only by the JSON value true. */
  datatype Command = Command(rawId: string, signature: Signature, redispatch: bool, recent: bool)

  /** Rejected and Result are both command_result frames; Rejected never reached the dispatcher. */
  datatype Frame = Ack | Progress | Rejected(code: string) | Result(row: Row)

  datatype Stage =
    | Silent                             // no id: dropped without a word
    | TurnedAway(code: string, sent: bool)
    | Acked(id: string)
    | InHandle(id: string)
    | Answered(id: string)
    | Broken                             // a send of its own raised or was cancelled

  datatype Stream = Stream(p: Proto, stages: map<nat, Stage>, logs: map<nat, seq<Frame>>)

  /** What happens on the connections; `sent` says whether the frame in question left. */
  datatype Move =
    | Arrive(delivery: nat, command: Command, sent: bool)
    | Enter(delivery: nat, refusal: Option<string>)
    | Dispatch(delivery: nat, sent: bool, message: string)
    | TaskProgress(task: nat)
    | TaskEnds(task: nat, ending: Ending)
    | Wakes(delivery: nat)
    | Cancels(delivery: nat)
    | Answer(delivery: nat, sent: bool)

  function Start(p: Proto): Stream {
    Stream(p, map[], map[])
  }

  /** Lines 190-224: a wrong signature is checked first; only a re-dispatch may be old. */
  function Verdict(c: Command): Option<string> {
    if c.signature.Bad? then Some("signature_invalid")
    else if !c.redispatch && !c.recent then Some("command_expired")
    else None
  }

  function OnArrive(s: Stream, w: nat, c: Command, sent: bool): Stream {
    if w in s.stages || w in s.p.deliveries then s
    else
      var id := Text.Trim(Text.PySpace, c.rawId);
      if id == "" then s.(stages := s.stages[w := Silent], logs := s.logs[w := []])
      else match Verdict(c)
        case Some(code) =>
          s.(stages := s.stages[w := TurnedAway(code, sent)], logs := s.logs[w := if sent then [Rejected(code)] else []])
        case None =>
          s.(stages := s.stages[w := if sent then Acked(id) else Broken], logs := s.logs[w := if sent then [Ack] else []])
  }

  function OnEnter(s: Stream, w: nat, refusal: Option<string>): Stream {
    if w !in s.stages || !s.stages[w].Acked? then s
    else s.(p := OnBegin(s.p, w, s.stages[w].id, refusal), stages := s.stages[w := InHandle(s.stages[w].id)])
  }

  function Said(s: Stream, w: nat, f: Frame): Stream {
    if w in s.logs then s.(logs := s.logs[w := s.logs[w] + [f]]) else s
  }

  function OnDispatch(s: Stream, w: nat, sent: bool, message: string): Stream {
    if w !in s.p.deliveries || !s.p.deliveries[w].Dispatching? then s
    else if sent then Said(s, w, Progress).(p := OnProceed(s.p, w))
    else s.(p := OnProgressFails(s.p, w, message))
  }

  /** A running task reports progress through the delivery that started it. */
  function OnTaskProgress(s: Stream, t: nat): Stream {
    if Live(s.p, t) then Said(s, s.p.tasks[t].creator, Progress) else s
  }

  predicate Answerable(s: Stream, w: nat) {
    w in s.stages && s.stages[w].InHandle? && w in s.p.deliveries && s.p.deliveries[w].Finished?
  }

  function OnCancels(s: Stream, w: nat): Stream {
    if w in s.stages && (s.stages[w].Acked? || Answerable(s, w)) then s.(stages := s.stages[w := Broken])
    else s.(p := OnCancel(s.p, w))
  }

  function OnAnswer(s: Stream, w: nat, sent: bool): Stream {
    if !Answerable(s, w) then s
    else if sent then Said(s, w, Result(s.p.deliveries[w].row)).(stages := s.stages[w := Answered(s.stages[w].id)])
    else s.(stages := s.stages[w := Broken])
  }

  function Step(s: Stream, m: Move): Stream {
    match m
    case Arrive(w, c, sent) => OnArrive(s, w, c, sent)
    case Enter(w, refusal) => OnEnter(s, w, refusal)
    case Dispatch(w, sent, message) => OnDispatch(s, w, sent, message)
    case TaskProgress(t) => OnTaskProgress(s, t)
    case TaskEnds(t, ending) => s.(p := OnComplete(s.p, t, ending))
    case Wakes(w) => s.(p := OnWake(s.p, w))
    case Cancels(w) => OnCancels(s, w)
    case Answer(w, sent) => OnAnswer(s, w, sent)
  }

  function Run(s: Stream, moves: seq<Move>): Stream {
    if moves == [] then s else Step(Run(s, moves[..|moves| - 1]), moves[|moves| - 1])
  }

  // ---------------------------------------------------------------------------------------------
  // The grammar of one delivery's frames
  // ---------------------------------------------------------------------------------------------

  /** An acknowledgement and `n` progress frames. */
  function Opening(n: nat): (log: seq<Frame>)
    ensures |log| == n + 1
  {
    if n == 0 then [Ack] else Opening(n - 1) + [Progress]
  }

  predicate IsOpening(log: seq<Frame>) {
    log != [] && log == Opening(|log| - 1)
  }

  /** Ack, progress frames, one result: a delivery that was accepted and answered. */
  predicate IsAnswered(log: seq<Frame>, row: Row) {
    log != [] && log[|log| - 1] == Result(row) && IsOpening(log[..|log| - 1])
  }

  /** What may stand on the wire for a delivery at any moment. */
  predicate Conforms(log: seq<Frame>) {
    || log == []
    || (|log| == 1 && log[0].Rejected?)
    || IsOpening(log)
    || (log[|log| - 1].Result? && IsAnswered(log, log[|log| - 1].row))
  }

  /** Only the delivery that started a run hears of its progress; the others have had one progress frame each. */
  predicate Heard(p: Proto, w: nat, t: nat, log: seq<Frame>) {
    |log| >= 2 && (t < |p.tasks| && p.tasks[t].creator != w ==> |log| == 2)
  }

  predicate DeliveryLog(p: Proto, w: nat, id: string, log: seq<Frame>)
    requires w in p.deliveries
  {
    && IsOpening(log)
    && p.deliveries[w].id == id
    && match p.deliveries[w]
       case Dispatching(_) => |log| == 1
       case Waiting(_, t, _) => Heard(p, w, t, log)
       case Finished(_, Ran(t), _) => Heard(p, w, t, log)
       case Finished(_, _, _) => |log| == 1
       case Dead(_) => true
  }

  predicate StageOk(s: Stream, w: nat)
    requires w in s.stages
  {
    && w in s.logs
    && match s.stages[w]
       case Silent => s.logs[w] == [] && w !in s.p.deliveries
       case TurnedAway(code, sent) => s.logs[w] == (if sent then [Rejected(code)] else []) && w !in s.p.deliveries
       case Acked(id) => s.logs[w] == [Ack] && id != "" && w !in s.p.deliveries
       case InHandle(id) => w in s.p.deliveries && DeliveryLog(s.p, w, id, s.logs[w])
       case Answered(id) =>
         w in s.p.deliveries && s.p.deliveries[w].Finished? && IsAnswered(s.logs[w], s.p.deliveries[w].row)
         && DeliveryLog(s.p, w, id, s.logs[w][..|s.logs[w]| - 1])
       case Broken => (s.logs[w] == [] || IsOpening(s.logs[w])) && (w in s.p.deliveries ==> s.p.deliveries[w].Finished?)
  }

  predicate Known(s: Stream, w: nat) {
    w in s.p.deliveries ==> w in s.stages && s.stages[w] != Silent
  }

  ghost predicate InStep(s: Stream) {
    && Inv(s.p)
    && (forall w :: w in s.stages ==> StageOk(s, w))
    && (forall w :: Known(s, w))
  }

  /** A delivery that a move does not touch keeps its stage in order. */
  lemma Untouched(s: Stream, q: Stream, w: nat)
    requires w in s.stages && StageOk(s, w) && TasksGrow(s.p.tasks, q.p.tasks)
    requires w in q.stages && q.stages[w] == s.stages[w] && w in q.logs && w in s.logs && q.logs[w] == s.logs[w]
    requires w in s.p.deliveries <==> w in q.p.deliveries
    requires w in s.p.deliveries ==> q.p.deliveries[w] == s.p.deliveries[w] && (w in q.p.deliveries ==> DeliveryOk(s.p, w))
    ensures StageOk(q, w)
  {
  }

  /** A move that concerns one delivery only keeps the others in step. */
  lemma OnlyOne(s: Stream, q: Stream, w: nat)
    requires InStep(s) && Inv(q.p) && TasksGrow(s.p.tasks, q.p.tasks)
    requires w in q.stages && q.stages == s.stages[w := q.stages[w]]
    requires w in q.logs && q.logs == s.logs[w := q.logs[w]]
    requires q.p.deliveries == s.p.deliveries || (w in q.p.deliveries && q.p.deliveries == s.p.deliveries[w := q.p.deliveries[w]])
    requires StageOk(q, w) && (q.stages[w] != Silent || w !in q.p.deliveries)
    ensures InStep(q)
  {
    forall x | x in q.stages
      ensures StageOk(q, x)
    {
      if x != w {
        assert StageOk(s, x);
        assert x in s.p.deliveries ==> DeliveryOk(s.p, x);
        Untouched(s, q, x);
      }
    }
    forall x
      ensures Known(q, x)
    {
      assert Known(s, x);
    }
  }

  lemma ArrivalIsOk(s: Stream, w: nat, c: Command, sent: bool)
    requires w !in s.stages && w !in s.p.deliveries
    ensures var q := OnArrive(s, w, c, sent);
            && q.p == s.p && w in q.stages && StageOk(q, w)
            && q.stages == s.stages[w := q.stages[w]] && q.logs == s.logs[w := q.logs[w]]
  {
    assert Opening(0) == [Ack];
  }

  lemma ArriveInStep(s: Stream, w: nat, c: Command, sent: bool)
    requires InStep(s)
    ensures InStep(OnArrive(s, w, c, sent))
  {
    if w !in s.stages && w !in s.p.deliveries {
      var q := OnArrive(s, w, c, sent);
      ArrivalIsOk(s, w, c, sent);
      OnlyOne(s, q, w);
    }
  }

  lemma EnterInStep(s: Stream, w: nat, refusal: Option<string>)
    requires InStep(s)
    ensures InStep(OnEnter(s, w, refusal))
  {
    if w in s.stages && s.stages[w].Acked? {
      var q := OnEnter(s, w, refusal);
      assert StageOk(s, w);
      BeginKeepsInv(s.p, w, s.stages[w].id, refusal);
      BeginOutcome(s.p, w, s.stages[w].id, refusal);
      assert Opening(0) == [Ack];
      OnlyOne(s, q, w);
    }
  }

  /** A delivery that enters is dispatched or leaves at once, without a run; nothing else about deliveries or tasks changes. */
  lemma BeginOutcome(p: Proto, w: nat, id: string, refusal: Option<string>)
    requires w !in p.deliveries && id != ""
    ensures var q := OnBegin(p, w, id, refusal);
            && w in q.deliveries && q.deliveries == p.deliveries[w := q.deliveries[w]] && q.tasks == p.tasks && q.deliveries[w].id == id
            && (q.deliveries[w].Dispatching? || (q.deliveries[w].Finished? && !q.deliveries[w].how.Ran?))
  {
  }

  lemma OneMore(log: seq<Frame>)
    requires IsOpening(log)
    ensures IsOpening(log + [Progress])
  {
  }

  lemma DispatchInStep(s: Stream, w: nat, sent: bool, message: string)
    requires InStep(s)
    ensures InStep(OnDispatch(s, w, sent, message))
  {
    if w in s.p.deliveries && s.p.deliveries[w].Dispatching? {
      var q := OnDispatch(s, w, sent, message);
      assert Known(s, w);
      assert StageOk(s, w);
      if sent {
        ProceedKeepsInv(s.p, w);
        OneMore(s.logs[w]);
      } else {
        ProgressFailsKeepsInv(s.p, w, message);
      }
      OnlyOne(s, q, w);
    }
  }

  /** The delivery that hears a live task's progress still awaits it, so its result has not been sent. */
  lemma TaskProgressInStep(s: Stream, t: nat)
    requires InStep(s)
    ensures InStep(OnTaskProgress(s, t))
  {
    if Live(s.p, t) {
      var w := s.p.tasks[t].creator;
      assert LiveIsRegistered(s.p, t);
      assert Registered(s.p, s.p.tasks[t].id);
      assert Known(s, w);
      assert StageOk(s, w);
      OneMore(s.logs[w]);
      OnlyOne(s, OnTaskProgress(s, t), w);
    }
  }

  lemma TaskEndsInStep(s: Stream, t: nat, ending: Ending)
    requires InStep(s)
    ensures InStep(s.(p := OnComplete(s.p, t, ending)))
  {
    var q := s.(p := OnComplete(s.p, t, ending));
    CompleteKeepsInv(s.p, t, ending);
    forall x | x in q.stages
      ensures StageOk(q, x)
    {
      assert StageOk(s, x);
      assert x in s.p.deliveries ==> DeliveryOk(s.p, x);
      Untouched(s, q, x);
    }
    forall x
      ensures Known(q, x)
    {
      assert Known(s, x);
    }
  }

  /** A waiter leaves with the row of its run, or cancelled; nothing else about deliveries or tasks changes. */
  lemma WakeOutcome(p: Proto, w: nat)
    requires OnWake(p, w) != p
    ensures w in p.deliveries && p.deliveries[w].Waiting?
    ensures var q, id, t := OnWake(p, w), p.deliveries[w].id, p.deliveries[w].task;
            && w in q.deliveries && q.deliveries == p.deliveries[w := q.deliveries[w]] && q.tasks == p.tasks
            && (q.deliveries[w] == Dead(id) || (q.deliveries[w].Finished? && q.deliveries[w].id == id && q.deliveries[w].how == Ran(t)))
            && (q.deliveries[w].Dead? ==> p.deliveries[w].mustCancel || (t < |p.tasks| && p.tasks[t].status == Done(Cancelled)))
  {
  }

  lemma WakesInStep(s: Stream, w: nat)
    requires InStep(s)
    ensures InStep(s.(p := OnWake(s.p, w)))
  {
    WakeKeepsInv(s.p, w);
    if OnWake(s.p, w) != s.p {
      var q := s.(p := OnWake(s.p, w));
      WakeOutcome(s.p, w);
      assert Known(s, w);
      assert StageOk(s, w);
      WakeKeepsLog(s, q, w);
      OnlyOne(s, q, w);
    }
  }

  lemma WakeKeepsLog(s: Stream, q: Stream, w: nat)
    requires w in s.stages && StageOk(s, w) && q.stages == s.stages && q.logs == s.logs && q.p.tasks == s.p.tasks
    requires w in s.p.deliveries && s.p.deliveries[w].Waiting? && w in q.p.deliveries
    requires q.p.deliveries[w] == Dead(s.p.deliveries[w].id)
             || (q.p.deliveries[w].Finished? && q.p.deliveries[w].id == s.p.deliveries[w].id && q.p.deliveries[w].how == Ran(s.p.deliveries[w].task))
    ensures StageOk(q, w) && q.stages[w] != Silent
  {
  }

  lemma CancelsInStep(s: Stream, w: nat)
    requires InStep(s)
    ensures InStep(OnCancels(s, w))
  {
    CancelKeepsInv(s.p, w);
    if w in s.stages {
      assert StageOk(s, w);
      assert w in s.p.deliveries ==> DeliveryOk(s.p, w);
      OnlyOne(s, OnCancels(s, w), w);
    } else {
      assert Known(s, w);
    }
  }

  lemma AnswerInStep(s: Stream, w: nat, sent: bool)
    requires InStep(s)
    ensures InStep(OnAnswer(s, w, sent))
  {
    if Answerable(s, w) {
      var q := OnAnswer(s, w, sent);
      assert StageOk(s, w);
      if sent {
        assert q.logs[w][..|q.logs[w]| - 1] == s.logs[w];
      }
      OnlyOne(s, q, w);
    }
  }

  lemma StepInStep(s: Stream, m: Move)
    requires InStep(s)
    ensures InStep(Step(s, m))
  {
    match m
    case Arrive(w, c, sent) => ArriveInStep(s, w, c, sent);
    case Enter(w, refusal) => EnterInStep(s, w, refusal);
    case Dispatch(w, sent, message) => DispatchInStep(s, w, sent, message);
    case TaskProgress(t) => TaskProgressInStep(s, t);
    case TaskEnds(t, ending) => TaskEndsInStep(s, t, ending);
    case Wakes(w) => WakesInStep(s, w);
    case Cancels(w) => CancelsInStep(s, w);
    case Answer(w, sent) => AnswerInStep(s, w, sent);
  }

  lemma {:induction false} RunInStep(p: Proto, moves: seq<Move>)
    requires Inv(p) && p.deliveries == map[]
    ensures InStep(Run(Start(p), moves))
  {
    if moves != [] {
      RunInStep(p, moves[..|moves| - 1]);
      StepInStep(Run(Start(p), moves[..|moves| - 1]), moves[|moves| - 1]);
    }
  }

  /**
   At every moment of every run, with sends that fail and deliveries that are cancelled anywhere, a
   delivery has put on the wire nothing, one rejection, or an acknowledgement, then progress frames, then
   at most one result, which is last and carries the row the dispatcher returned to it.
   */
  lemma FramesConform(p: Proto, moves: seq<Move>, w: nat)
    requires Inv(p) && p.deliveries == map[] && w in Run(Start(p), moves).stages
    ensures var s := Run(Start(p), moves);
            && w in s.logs && Conforms(s.logs[w])
            && (s.logs[w] != [] && s.logs[w][|s.logs[w]| - 1].Result? ==>
                  w in s.p.deliveries && s.p.deliveries[w].Finished? && IsAnswered(s.logs[w], s.p.deliveries[w].row))
  {
    RunInStep(p, moves);
    var s := Run(Start(p), moves);
    assert StageOk(s, w);
    LastFrame(s.logs[w]);
  }

  lemma LastFrame(log: seq<Frame>)
    ensures IsOpening(log) ==> !log[|log| - 1].Result? && !log[|log| - 1].Rejected?
  {
  }

  // ---------------------------------------------------------------------------------------------
  // When sends succeed and nothing is cancelled, every delivery with an id is answered
  // ---------------------------------------------------------------------------------------------

  predicate Smooth(m: Move) {
    match m
    case Arrive(_, _, sent) => sent
    case Dispatch(_, sent, _) => sent
    case Answer(_, sent) => sent
    case Cancels(_) => false
    case _ => true
  }

  predicate Unhurt(p: Proto) {
    && (forall t :: 0 <= t < |p.tasks| ==> !p.tasks[t].cancelRequested && (p.tasks[t].status.Done? ==> !p.tasks[t].status.outcome.Cancelled?))
    && (forall w :: w in p.deliveries ==> !p.deliveries[w].Dead? && (p.deliveries[w].Waiting? ==> !p.deliveries[w].mustCancel))
  }

  ghost predicate Whole(s: Stream) {
    && Unhurt(s.p)
    && (forall w :: w in s.stages ==> !s.stages[w].Broken? && (s.stages[w].TurnedAway? ==> s.stages[w].sent))
  }

  lemma EventUnhurt(p: Proto, e: Event)
    requires Unhurt(p) && !e.Cancel?
    ensures Unhurt(Protocol.Step(p, e))
  {
    match e
    case Wake(w) =>
      if OnWake(p, w) != p {
        WakeOutcome(p, w);
      }
    case _ =>
  }

  lemma StepWhole(s: Stream, m: Move)
    requires Whole(s) && Smooth(m)
    ensures Whole(Step(s, m))
  {
    match m
    case Enter(w, refusal) => if w in s.stages && s.stages[w].Acked? { EventUnhurt(s.p, Begin(w, s.stages[w].id, refusal)); }
    case Dispatch(w, _, _) => EventUnhurt(s.p, Proceed(w));
    case TaskEnds(t, ending) => EventUnhurt(s.p, Complete(t, ending));
    case Wakes(w) => EventUnhurt(s.p, Wake(w));
    case _ =>
  }

  lemma {:induction false} RunWhole(p: Proto, moves: seq<Move>)
    requires Unhurt(p) && forall i :: 0 <= i < |moves| ==> Smooth(moves[i])
    ensures Whole(Run(Start(p), moves))
  {
    if moves != [] {
      RunWhole(p, moves[..|moves| - 1]);
      StepWhole(Run(Start(p), moves[..|moves| - 1]), moves[|moves| - 1]);
    }
  }

  /** Acknowledged, and not answered yet. */
  predicate Pending(s: Stream, w: nat) {
    w in s.stages && (s.stages[w].Acked? || (s.stages[w].InHandle? && w in s.p.deliveries))
  }

  /** How many steps of its own a pending delivery is away from its answer, at most. */
  function Distance(s: Stream, w: nat): nat {
    if !Pending(s, w) then 0
    else if s.stages[w].Acked? then 5
    else HandleDistance(s.p, w)
  }

  function HandleDistance(p: Proto, w: nat): nat
    requires w in p.deliveries
  {
    match p.deliveries[w]
    case Dispatching(_) => 4
    case Waiting(_, t, _) => if Live(p, t) then 3 else 2
    case Finished(_, _, _) => 1
    case Dead(_) => 0
  }

  /** Its next step: its own, or the end of the run it awaits. */
  function Next(s: Stream, w: nat): Move
    requires Pending(s, w)
  {
    if s.stages[w].Acked? then Enter(w, None)
    else match s.p.deliveries[w]
      case Dispatching(_) => Dispatch(w, true, "")
      case Waiting(_, t, _) => if Live(s.p, t) then TaskEnds(t, Fails("", "")) else Wakes(w)
      case _ => Answer(w, true)
  }

  lemma AckedCloser(s: Stream, w: nat)
    requires InStep(s) && w in s.stages && s.stages[w].Acked?
    ensures var q := Step(s, Next(s, w)); Pending(q, w) && Distance(q, w) <= 4
  {
    assert StageOk(s, w);
  }

  lemma HandleCloser(s: Stream, w: nat)
    requires InStep(s) && Whole(s) && Pending(s, w) && s.stages[w].InHandle?
    ensures var q := Step(s, Next(s, w));
            Smooth(Next(s, w)) && w in q.stages && Distance(q, w) < Distance(s, w) && (Distance(q, w) == 0 ==> q.stages[w].Answered?)
            && (q.stages[w].Answered? || Pending(q, w))
  {
    assert StageOk(s, w);
    assert DeliveryOk(s.p, w);
    match s.p.deliveries[w]
    case Dispatching(id) => RegisteredIsLive(s.p, w);
    case Waiting(id, t, _) =>
      if !Live(s.p, t) {
        WakeReturns(s.p, w);
      }
    case Finished(_, _, _) =>
    case Dead(_) => assert false;
  }

  lemma RegisteredIsLive(p: Proto, w: nat)
    requires Inv(p) && w in p.deliveries && p.deliveries[w].Dispatching?
    ensures w in OnProceed(p, w).deliveries && OnProceed(p, w).deliveries[w].Waiting? && Live(OnProceed(p, w), OnProceed(p, w).deliveries[w].task)
  {
  }

  lemma WakeReturns(p: Proto, w: nat)
    requires Unhurt(p) && w in p.deliveries && p.deliveries[w].Waiting?
    requires p.deliveries[w].task < |p.tasks| && !Live(p, p.deliveries[w].task)
    ensures w in OnWake(p, w).deliveries && OnWake(p, w).deliveries[w].Finished?
  {
  }

  lemma NextCloser(s: Stream, w: nat)
    requires InStep(s) && Whole(s) && Pending(s, w)
    ensures var q := Step(s, Next(s, w));
            && Smooth(Next(s, w)) && InStep(q) && Whole(q)
            && Distance(q, w) < Distance(s, w) <= 5 && w in q.stages && (q.stages[w].Answered? || Pending(q, w))
  {
    if s.stages[w].Acked? {
      AckedCloser(s, w);
    } else {
      HandleCloser(s, w);
    }
    StepInStep(s, Next(s, w));
    StepWhole(s, Next(s, w));
  }

  /** The delivery's complete answer is on the wire. */
  predicate AnswerSent(s: Stream, w: nat) {
    && w in s.stages && s.stages[w].Answered? && w in s.logs
    && w in s.p.deliveries && s.p.deliveries[w].Finished? && IsAnswered(s.logs[w], s.p.deliveries[w].row)
  }

  /** From wherever a pending delivery stands, at most five steps, each its next one, end with its answer on the wire. */
  lemma {:induction false} AnswerIsNear(s: Stream, w: nat) returns (rest: seq<Move>)
    requires InStep(s) && Whole(s) && Pending(s, w)
    ensures |rest| <= Distance(s, w) <= 5 && (forall i :: 0 <= i < |rest| ==> Smooth(rest[i]))
    ensures InStep(Run(s, rest)) && AnswerSent(Run(s, rest), w)
    decreases Distance(s, w)
  {
    var m := Next(s, w);
    var q := Step(s, m);
    NextCloser(s, w);
    var more := [];
    if q.stages[w].Answered? {
      assert StageOk(q, w);
      assert Run(q, []) == q;
    } else {
      more := AnswerIsNear(q, w);
    }
    RunCons(s, m, more);
    rest := [m] + more;
  }

  lemma {:induction false} RunCons(s: Stream, m: Move, rest: seq<Move>)
    ensures Run(s, [m] + rest) == Run(Step(s, m), rest)
  {
    if rest == [] {
      assert [m] + rest == [m] && [m][..0] == [];
      assert Run(s, []) == s;
    } else {
      RunCons(s, m, rest[..|rest| - 1]);
      assert ([m] + rest)[..|rest|] == [m] + rest[..|rest| - 1];
    }
  }

  lemma {:induction false} RunAppend(s: Stream, a: seq<Move>, b: seq<Move>)
    ensures Run(s, a + b) == Run(Run(s, a), b)
  {
    if b == [] {
      assert a + b == a;
    } else {
      RunAppend(s, a, b[..|b| - 1]);
      assert (a + b)[..|a + b| - 1] == a + b[..|b| - 1];
    }
  }

  lemma EventSetsNoneBack(p: Proto, e: Event, w: nat)
    requires Inv(p) && w in p.deliveries
    ensures var q := Protocol.Step(p, e); w in q.deliveries && HandleDistance(q, w) <= HandleDistance(p, w)
  {
    assert DeliveryOk(p, w);
    match e
    case Wake(v) =>
      if OnWake(p, v) != p {
        WakeOutcome(p, v);
      }
    case _ =>
  }

  /** The protocol event, if any, that a move is for the dispatcher. */
  function EventOf(s: Stream, m: Move): Option<Event> {
    match m
    case Enter(v, refusal) => if v in s.stages && s.stages[v].Acked? then Some(Begin(v, s.stages[v].id, refusal)) else None
    case Dispatch(v, sent, message) =>
      if v !in s.p.deliveries || !s.p.deliveries[v].Dispatching? then None
      else Some(if sent then Proceed(v) else ProgressFails(v, message))
    case TaskEnds(t, ending) => Some(Complete(t, ending))
    case Wakes(v) => Some(Wake(v))
    case _ => None
  }

  lemma ByEvent(s: Stream, m: Move)
    requires !m.Cancels?
    ensures Step(s, m).p == if EventOf(s, m).Some? then Protocol.Step(s.p, EventOf(s, m).value) else s.p
  {
  }

  lemma AckedStays(s: Stream, m: Move, w: nat)
    requires InStep(s) && Smooth(m) && w in s.stages && s.stages[w].Acked?
    ensures w in Step(s, m).stages && Pending(Step(s, m), w)
  {
    assert StageOk(s, w);
    if m.Enter? && m.delivery == w {
      BeginOutcome(s.p, w, s.stages[w].id, m.refusal);
    }
  }

  lemma HandleStage(s: Stream, m: Move, w: nat)
    requires InStep(s) && Smooth(m) && Pending(s, w) && s.stages[w].InHandle?
    ensures w in Step(s, m).stages && (Step(s, m).stages[w] == s.stages[w] || Step(s, m).stages[w].Answered?)
  {
    assert StageOk(s, w);
  }

  /** Nothing that happens to others sets a pending delivery back, so every interleaving that lets it go on answers it. */
  lemma NothingSetsBack(s: Stream, m: Move, w: nat)
    requires InStep(s) && Smooth(m) && Pending(s, w)
    ensures var q := Step(s, m);
            && Distance(q, w) <= Distance(s, w)
            && w in q.stages && (Pending(q, w) || q.stages[w].Answered?)
  {
    if s.stages[w].Acked? {
      AckedStays(s, m, w);
    } else {
      HandleStage(s, m, w);
      ByEvent(s, m);
      if EventOf(s, m).Some? {
        EventSetsNoneBack(s.p, EventOf(s, m).value, w);
      }
    }
  }

  /**
   While sends succeed and nothing is cancelled, every delivery with an id is answered: it has sent its
   one rejection, or its acknowledgement, progress frames and exactly one result; or it is pending, and at
   most five further such steps bring it there.
   */
  lemma EveryDeliveryIsAnswered(p: Proto, moves: seq<Move>, w: nat) returns (rest: seq<Move>)
    requires Inv(p) && p.deliveries == map[] && p.tasks == []
    requires forall i :: 0 <= i < |moves| ==> Smooth(moves[i])
    requires w in Run(Start(p), moves).stages
    ensures |rest| <= 5 && (forall i :: 0 <= i < |rest| ==> Smooth(rest[i]))
    ensures !Pending(Run(Start(p), moves), w) ==> rest == []
    ensures var q := Run(Start(p), moves + rest);
            && w in q.stages && w in q.logs
            && match q.stages[w]
               case Silent => q.logs[w] == []
               case TurnedAway(code, _) => q.logs[w] == [Rejected(code)]
               case Answered(_) => AnswerSent(q, w)
               case _ => false
  {
    RunInStep(p, moves);
    RunWhole(p, moves);
    var s := Run(Start(p), moves);
    assert StageOk(s, w);
    rest := [];
    if Pending(s, w) {
      rest := AnswerIsNear(s, w);
      RunAppend(Start(p), moves, rest);
    } else {
      assert moves + [] == moves;
    }
  }

  /** A replay is an acknowledgement and the result, with no progress frame between them. */
  lemma ReplaysSayNothing(p: Proto, moves: seq<Move>, w: nat)
    requires Inv(p) && p.deliveries == map[]
    requires w in Run(Start(p), moves).stages && Run(Start(p), moves).stages[w].Answered?
    requires w in Run(Start(p), moves).p.deliveries && Run(Start(p), moves).p.deliveries[w].Finished?
    requires !Run(Start(p), moves).p.deliveries[w].how.Ran?
    ensures var s := Run(Start(p), moves); w in s.logs && s.logs[w] == [Ack, Result(s.p.deliveries[w].row)]
  {
    RunInStep(p, moves);
    var s := Run(Start(p), moves);
    assert StageOk(s, w);
    assert Opening(0) == [Ack];
  }
}
