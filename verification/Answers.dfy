/** Where every returned row comes from: the event that made it, over whole runs. */
module Answers {
  import opened Prelude
  import opened OrderedDict
  import opened StateStore
  import opened Protocol
  import opened ProtocolInvariant
  import opened ProtocolTheorems
  import opened Cancellation

  // ---------------------------------------------------------------------------------------------
  // How a run ended is how its completion said
  // ---------------------------------------------------------------------------------------------

  /** The run was unfinished, and this event ended it with this outcome. */
  predicate Ends(s: Proto, e: Event, t: nat, outcome: Outcome) {
    && Live(s, t) && e.Complete? && e.task == t
    && match e.ending
       case Gives(result) => outcome.Returned? && outcome.original == result
       case Fails(code, message) => outcome == Raised(code, message)
       case IsCancelled => outcome == Cancelled
  }

  predicate EndedAt(s: Proto, events: seq<Event>, k: nat, t: nat, outcome: Outcome)
    requires k < |events|
  {
    Ends(Run(s, events[..k]), events[k], t, outcome)
  }

  predicate Ended(s: Proto, events: seq<Event>, t: nat, outcome: Outcome) {
    exists k: nat :: k < |events| && EndedAt(s, events, k, t, outcome)
  }

  lemma EndedLater(s: Proto, events: seq<Event>, t: nat, outcome: Outcome)
    requires events != []
    requires Ended(s, events[..|events| - 1], t, outcome) || Ends(Run(s, events[..|events| - 1]), events[|events| - 1], t, outcome)
    ensures Ended(s, events, t, outcome)
  {
    var n := |events| - 1;
    if Ended(s, events[..n], t, outcome) {
      var k: nat :| k < n && EndedAt(s, events[..n], k, t, outcome);
      assert events[..k] == events[..n][..k];
      assert EndedAt(s, events, k, t, outcome);
    } else {
      assert EndedAt(s, events, n, t, outcome);
    }
  }

  lemma StepEnds(s: Proto, e: Event, t: nat)
    requires t < |Step(s, e).tasks| && Step(s, e).tasks[t].status.Done?
    ensures t < |s.tasks|
    ensures Step(s, e).tasks[t].status == s.tasks[t].status || Ends(s, e, t, Step(s, e).tasks[t].status.outcome)
  {
  }

  /** A finished run has the outcome that the completion of it gave: a returned dict, the error raised, or cancelled. */
  lemma {:induction false} OutcomeIsTheEnding(s: Proto, events: seq<Event>, t: nat)
    requires s.tasks == []
    ensures var q := Run(s, events);
            t < |q.tasks| && q.tasks[t].status.Done? ==> Ended(s, events, t, q.tasks[t].status.outcome)
  {
    if events != [] {
      var n := |events| - 1;
      var q, e := Run(s, events[..n]), events[n];
      if t < |Step(q, e).tasks| && Step(q, e).tasks[t].status.Done? {
        StepEnds(q, e, t);
        OutcomeIsTheEnding(s, events[..n], t);
        EndedLater(s, events, t, Step(q, e).tasks[t].status.outcome);
      }
    }
  }

  // ---------------------------------------------------------------------------------------------
  // What a delivery answers, and why
  // ---------------------------------------------------------------------------------------------

  /** A failure row with this code and message, over a dict made for it, so that no row before refers to it. */
  predicate OwnFailure(s: Proto, row: Row, code: string, message: string) {
    !row.success && row.code == code && row.message == message && row.result == |s.dicts|
  }

  /** The event, in this state, makes the delivery answer the row. */
  predicate Answers(s: Proto, e: Event, w: nat, id: string, row: Row) {
    match e
    case Begin(v, i, refusal) =>
      && v == w && i == id && w !in s.deliveries
      && (if id == "" then !row.success && row.code == "invalid_command" && row.message == "Missing command id."
          else if id in ToMap(s.rows) then row == ToMap(s.rows)[id]
          else refusal.Some? && OwnFailure(s, row, "policy_violation", refusal.value))
    case ProgressFails(v, message) =>
      v == w && w in s.deliveries && s.deliveries[w] == Dispatching(id) && OwnFailure(s, row, "internal_error", message)
    case Wake(v) =>
      && v == w && w in s.deliveries && s.deliveries[w].Waiting? && s.deliveries[w].id == id
      && var t := s.deliveries[w].task;
         && t < |s.tasks| && s.tasks[t].id == id && s.tasks[t].status.Done?
         && (match s.tasks[t].status.outcome
             case Returned(result, _) => row == Row(true, "", "", result)
             case Raised(code, message) => OwnFailure(s, row, code, message)
             case Cancelled => false)
    case _ => false
  }

  predicate AnsweredAt(s: Proto, events: seq<Event>, k: nat, w: nat, id: string, row: Row)
    requires k < |events|
  {
    Answers(Run(s, events[..k]), events[k], w, id, row)
  }

  predicate IsAnswered(s: Proto, events: seq<Event>, w: nat, id: string, row: Row) {
    exists k: nat :: k < |events| && AnsweredAt(s, events, k, w, id, row)
  }

  lemma AnsweredLater(s: Proto, events: seq<Event>, w: nat, id: string, row: Row)
    requires events != []
    requires IsAnswered(s, events[..|events| - 1], w, id, row) || Answers(Run(s, events[..|events| - 1]), events[|events| - 1], w, id, row)
    ensures IsAnswered(s, events, w, id, row)
  {
    var n := |events| - 1;
    if IsAnswered(s, events[..n], w, id, row) {
      var k: nat :| k < n && AnsweredAt(s, events[..n], k, w, id, row);
      assert events[..k] == events[..n][..k];
      assert AnsweredAt(s, events, k, w, id, row);
    } else {
      assert AnsweredAt(s, events, n, w, id, row);
    }
  }

  lemma BeginAnswers(s: Proto, w: nat, id: string, refusal: Option<string>)
    requires w !in s.deliveries
    ensures var q := OnBegin(s, w, id, refusal);
            w in q.deliveries && (q.deliveries[w].Finished? ==> q.deliveries[w].id == id && Answers(s, Begin(w, id, refusal), w, id, q.deliveries[w].row))
  {
  }

  lemma WakeAnswers(s: Proto, w: nat)
    requires Inv(s) && w in s.deliveries && s.deliveries[w].Waiting?
    ensures var q := OnWake(s, w);
            w in q.deliveries && (q.deliveries[w].Finished? ==>
              q.deliveries[w].id == s.deliveries[w].id && Answers(s, Wake(w), w, s.deliveries[w].id, q.deliveries[w].row))
  {
    assert DeliveryOk(s, w);
  }

  lemma StepAnswers(s: Proto, e: Event, w: nat)
    requires Inv(s) && w in Step(s, e).deliveries && Step(s, e).deliveries[w].Finished?
    ensures (w in s.deliveries && s.deliveries[w] == Step(s, e).deliveries[w])
            || Answers(s, e, w, Step(s, e).deliveries[w].id, Step(s, e).deliveries[w].row)
  {
    match e
    case Begin(v, id, refusal) => if v == w && w !in s.deliveries { BeginAnswers(s, w, id, refusal); }
    case Wake(v) => if v == w && w in s.deliveries && s.deliveries[w].Waiting? { WakeAnswers(s, w); }
    case _ =>
  }

  /**
   Every returned row, in every run, has exactly one kind of origin: the missing id; the row stored when
   the delivery came in; a refusal, with the guard's message; the first progress send that raised, with its
   exception's text; or the finished run the delivery awaited, with that run's outcome.
   */
  lemma {:induction false} EveryAnswerHasItsReason(s: Proto, events: seq<Event>, w: nat)
    requires Inv(s) && s.deliveries == map[]
    ensures var q := Run(s, events);
            w in q.deliveries && q.deliveries[w].Finished? ==> IsAnswered(s, events, w, q.deliveries[w].id, q.deliveries[w].row)
  {
    if events != [] {
      var n := |events| - 1;
      var q, e := Run(s, events[..n]), events[n];
      RunKeepsInv(s, events[..n]);
      if w in Step(q, e).deliveries && Step(q, e).deliveries[w].Finished? {
        StepAnswers(q, e, w);
        EveryAnswerHasItsReason(s, events[..n], w);
        AnsweredLater(s, events, w, Step(q, e).deliveries[w].id, Step(q, e).deliveries[w].row);
      }
    }
  }

  /** A failure of the delivery's own refers to a dict that is empty but for the replay mark. */
  predicate FailsEmpty(s: Proto, w: nat) {
    w in s.deliveries && s.deliveries[w].Finished? && !s.deliveries[w].how.Replayed? && !s.deliveries[w].how.Invalid? && !s.deliveries[w].row.success ==>
      s.deliveries[w].row.result < |s.dicts| && Unmarked(s.dicts[s.deliveries[w].row.result]) == map[]
  }

  lemma FinishedStays(s: Proto, e: Event, w: nat)
    requires w in s.deliveries && s.deliveries[w].Finished?
    ensures w in Step(s, e).deliveries && Step(s, e).deliveries[w] == s.deliveries[w]
  {
  }

  lemma NewFailureEmpty(s: Proto, e: Event, w: nat)
    requires Inv(s) && !(w in s.deliveries && s.deliveries[w].Finished?)
    ensures FailsEmpty(Step(s, e), w)
  {
    var q := Step(s, e);
    if w in q.deliveries && q.deliveries[w].Finished? {
      ReturnsByOwnEvent(s, e, w);
      match e
      case Begin(_, id, refusal) =>
        if id != "" && id !in ToMap(s.rows) && refusal.Some? {
          RefusalAnswers(s, w, id, refusal.value);
        }
      case ProgressFails(_, message) => RaisedSendAnswers(s, w, s.deliveries[w].id, message);
      case Wake(_) =>
        WakeKeepsInv(s, w);
        assert DeliveryOk(q, w);
    }
  }

  lemma StepFailsEmpty(s: Proto, e: Event, w: nat)
    requires Inv(s) && FailsEmpty(s, w)
    ensures FailsEmpty(Step(s, e), w)
  {
    if w in s.deliveries && s.deliveries[w].Finished? {
      FinishedStays(s, e, w);
      StepKeepsInv(s, e);
    } else {
      NewFailureEmpty(s, e, w);
    }
  }

  lemma {:induction false} FailuresStayEmpty(s: Proto, events: seq<Event>, w: nat)
    requires Inv(s) && s.deliveries == map[]
    ensures FailsEmpty(Run(s, events), w)
  {
    if events != [] {
      FailuresStayEmpty(s, events[..|events| - 1], w);
      RunKeepsInv(s, events[..|events| - 1]);
      StepFailsEmpty(Run(s, events[..|events| - 1]), events[|events| - 1], w);
    }
  }

  /** A row of the id was in the table when the delivery came in. */
  predicate CameStored(s: Proto, events: seq<Event>, w: nat, id: string) {
    exists k: nat :: k < |events| && StoredAtBegin(s, events, k, w, id)
  }

  predicate StoredAtBegin(s: Proto, events: seq<Event>, k: nat, w: nat, id: string)
    requires k < |events|
  {
    events[k].Begin? && events[k].delivery == w && events[k].id == id && id in ToMap(Run(s, events[..k]).rows)
  }

  /** A run of the id was ended by a dict returned. */
  ghost predicate RanWell(s: Proto, events: seq<Event>, id: string) {
    exists t: nat, outcome: Outcome :: t < |Run(s, events).tasks| && Run(s, events).tasks[t].id == id && outcome.Returned? && Ended(s, events, t, outcome)
  }

  lemma {:induction false} TasksStay(a: Proto, rest: seq<Event>, t: nat)
    requires Inv(a) && t < |a.tasks|
    ensures var b := Run(a, rest);
            Inv(b) && t < |b.tasks| && b.tasks[t].id == a.tasks[t].id && (a.tasks[t].status.Done? ==> b.tasks[t] == a.tasks[t])
  {
    if rest != [] {
      var b := Run(a, rest[..|rest| - 1]);
      TasksStay(a, rest[..|rest| - 1], t);
      TaskStays(b, rest[|rest| - 1], t);
      StepKeepsInv(b, rest[|rest| - 1]);
    }
  }

  lemma TaskStays(s: Proto, e: Event, t: nat)
    requires Inv(s) && t < |s.tasks|
    ensures var q := Step(s, e);
            t < |q.tasks| && q.tasks[t].id == s.tasks[t].id && (s.tasks[t].status.Done? ==> q.tasks[t] == s.tasks[t])
  {
    StepKeepsInv(s, e);
  }

  /**
   Success is never invented: a delivery that answers success replays a row that was stored when it came
   in, or a run of its command was completed with a dict returned.
   */
  lemma SuccessIsEarned(s: Proto, events: seq<Event>, w: nat)
    requires Inv(s) && s.deliveries == map[] && s.tasks == []
    requires var q := Run(s, events); w in q.deliveries && q.deliveries[w].Finished? && q.deliveries[w].row.success
    ensures var id := Run(s, events).deliveries[w].id; CameStored(s, events, w, id) || RanWell(s, events, id)
  {
    var q := Run(s, events);
    var id, row := q.deliveries[w].id, q.deliveries[w].row;
    EveryAnswerHasItsReason(s, events, w);
    var k: nat :| k < |events| && AnsweredAt(s, events, k, w, id, row);
    var a, e := Run(s, events[..k]), events[k];
    if e.Begin? {
      assert StoredAtBegin(s, events, k, w, id);
    } else {
      var t := a.deliveries[w].task;
      assert events == events[..k] + events[k..];
      RunAppend(s, events[..k], events[k..]);
      RunKeepsInv(s, events[..k]);
      TasksStay(a, events[k..], t);
      OutcomeIsTheEnding(s, events, t);
      assert Ended(s, events, t, q.tasks[t].status.outcome);
    }
  }

  // ---------------------------------------------------------------------------------------------
  // What failing and cancelling events do at once
  // ---------------------------------------------------------------------------------------------

  /**
   A progress send that raises: the command does not run; the delivery answers, and the table keeps, a
   failure with the text of the exception over a new, empty dict.
   */
  lemma RaisedSendAnswers(s: Proto, w: nat, id: string, message: string)
    requires Inv(s) && w in s.deliveries && s.deliveries[w] == Dispatching(id)
    ensures var q := OnProgressFails(s, w, message);
            && q.tasks == s.tasks && q.inflight == s.inflight && q.dicts == s.dicts + [map[]]
            && w in q.deliveries && q.deliveries[w].Finished? && !q.deliveries[w].row.success
            && q.deliveries[w].row.code == "internal_error" && q.deliveries[w].row.message == message
            && q.deliveries[w].row.result == |s.dicts|
            && id in ToMap(q.rows) && ToMap(q.rows)[id] == q.deliveries[w].row
  {
    ProgressFailsKeepsInv(s, w, message);
    TableRemembers(s, OnProgressFails(s, w, message), id, Row(false, "internal_error", message, |s.dicts|));
  }

  /** A refused delivery: the same with the guard's message, and nothing is dispatched. */
  lemma RefusalAnswers(s: Proto, w: nat, id: string, message: string)
    requires Inv(s) && w !in s.deliveries && id != "" && id !in ToMap(s.rows)
    ensures var q := OnBegin(s, w, id, Some(message));
            && q.tasks == s.tasks && q.inflight == s.inflight && q.dicts == s.dicts + [map[]]
            && w in q.deliveries && q.deliveries[w].Finished? && !q.deliveries[w].row.success
            && q.deliveries[w].row.code == "policy_violation" && q.deliveries[w].row.message == message
            && q.deliveries[w].row.result == |s.dicts|
            && id in ToMap(q.rows) && ToMap(q.rows)[id] == q.deliveries[w].row
  {
    BeginKeepsInv(s, w, id, Some(message));
    TableRemembers(s, OnBegin(s, w, id, Some(message)), id, Row(false, "policy_violation", message, |s.dicts|));
  }

  /**
   A cancelled delivery: before its run it dies at once and nothing is started for it; while it awaits an
   unfinished run that run is asked to stop; after the end of the run it leaves without a row.
   */
  lemma CancellationIsFelt(s: Proto, w: nat)
    requires Inv(s) && w in s.deliveries && (s.deliveries[w].Dispatching? || s.deliveries[w].Waiting?)
    ensures var d, q := s.deliveries[w], OnCancel(s, w);
            && w in q.deliveries && q.rows == s.rows && |q.tasks| == |s.tasks|
            && (d.Dispatching? ==> q.deliveries[w].Dead? && OnProceed(q, w) == q)
            && (d.Waiting? && Live(s, d.task) ==> q.tasks[d.task].cancelRequested && q.deliveries[w] == d)
            && (d.Waiting? && !Live(s, d.task) ==> w in OnWake(q, w).deliveries && OnWake(q, w).deliveries[w].Dead? && OnWake(q, w).rows == s.rows)
  {
    assert DeliveryOk(s, w);
  }
}
