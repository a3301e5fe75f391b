/** Every step of the command protocol keeps the invariant, in every interleaving. */
module ProtocolInvariant {
  import opened Prelude
  import opened OrderedDict
  import opened StateStore
  import opened Protocol

  /** Dicts are never dropped and change at most in their replay mark. */
  predicate DictsGrow(a: seq<JsonDict>, b: seq<JsonDict>) {
    |a| <= |b| && forall r :: 0 <= r < |a| ==> Unmarked(b[r]) == Unmarked(a[r])
  }

  /** Tasks are never dropped, and a task that is done stays as it is. */
  predicate TasksGrow(a: seq<Task>, b: seq<Task>) {
    && |a| <= |b|
    && forall t :: 0 <= t < |a| ==> b[t].id == a[t].id && b[t].creator == a[t].creator && (a[t].status.Done? ==> b[t] == a[t])
  }

  predicate Grow(s: Proto, q: Proto) {
    DictsGrow(s.dicts, q.dicts) && TasksGrow(s.tasks, q.tasks)
  }

  lemma ReplayGrows(s: Proto, w: nat, id: string)
    requires id in ToMap(s.rows)
    ensures Grow(s, Replay(s, w, id)) && |Replay(s, w, id).dicts| == |s.dicts|
  {
    var r := ToMap(s.rows)[id].result;
    if r < |s.dicts| {
      assert Unmarked(s.dicts[r]["replayed" := "true"]) == Unmarked(s.dicts[r]);
    }
  }

  /** Deliveries, tasks and rows that a step does not touch stay in order as the state grows. */
  lemma DeliveryStays(s: Proto, q: Proto, w: nat)
    requires w in s.deliveries && w in q.deliveries && q.deliveries[w] == s.deliveries[w]
    requires Grow(s, q) && DeliveryOk(s, w)
    ensures DeliveryOk(q, w)
  {
    match s.deliveries[w]
    case Finished(id, Ran(t), row) =>
      assert q.tasks[t] == s.tasks[t];
      assert Unmarked(q.dicts[row.result]) == Unmarked(s.dicts[row.result]);
    case _ =>
  }

  lemma ResultStays(s: Proto, q: Proto, t: nat)
    requires t < |s.tasks| && ResultOk(s, t) && Grow(s, q) && s.tasks[t].status.Done?
    ensures ResultOk(q, t)
  {
    assert q.tasks[t] == s.tasks[t];
  }

  lemma TableStays(s: Proto, q: Proto)
    requires TableOk(s) && Grow(s, q) && q.rows == s.rows
    ensures TableOk(q)
  {
  }

  lemma TableRemembers(s: Proto, q: Proto, id: string, row: Row)
    requires TableOk(s) && Grow(s, q) && q.rows == Remember(s.rows, id, row) && row.result < |q.dicts|
    ensures TableOk(q) && id in ToMap(q.rows) && ToMap(q.rows)[id] == row
  {
    RememberMeaning(s.rows, id, row);
    RememberKeepsNewRow(s.rows, id, row);
  }

  /** A step that leaves tasks and registrations alone, and changes at most one delivery that awaits nothing. */
  lemma QuietStep(s: Proto, q: Proto, w: nat)
    requires Inv(s) && Grow(s, q) && q.tasks == s.tasks && q.inflight == s.inflight && TableOk(q)
    requires w in q.deliveries && (w in s.deliveries ==> !s.deliveries[w].Waiting?)
    requires q.deliveries == s.deliveries[w := q.deliveries[w]] && DeliveryOk(q, w)
    ensures Inv(q)
  {
    forall id
      ensures Registered(q, id)
    {
      assert Registered(s, id);
    }
    forall t
      ensures LiveIsRegistered(q, t)
    {
      assert LiveIsRegistered(s, t);
    }
    forall x | x in q.deliveries
      ensures DeliveryOk(q, x)
    {
      if x != w {
        DeliveryStays(s, q, x);
      }
    }
    forall t: nat | t < |q.tasks|
      ensures ResultOk(q, t)
    {
      if s.tasks[t].status.Done? {
        ResultStays(s, q, t);
      }
    }
  }

  lemma BeginKeepsInv(s: Proto, w: nat, id: string, refusal: Option<string>)
    requires Inv(s)
    ensures Inv(OnBegin(s, w, id, refusal)) && Grow(s, OnBegin(s, w, id, refusal))
  {
    var q := OnBegin(s, w, id, refusal);
    if w !in s.deliveries {
      if id != "" && id in ToMap(s.rows) {
        ReplayGrows(s, w, id);
        TableStays(s, q);
      } else if id != "" && refusal.Some? {
        TableRemembers(s, q, id, Row(false, "policy_violation", refusal.value, |s.dicts|));
      }
      QuietStep(s, q, w);
    }
  }

  lemma ProgressFailsKeepsInv(s: Proto, w: nat, message: string)
    requires Inv(s)
    ensures Inv(OnProgressFails(s, w, message)) && Grow(s, OnProgressFails(s, w, message))
  {
    var q := OnProgressFails(s, w, message);
    if w in s.deliveries && s.deliveries[w].Dispatching? {
      TableRemembers(s, q, s.deliveries[w].id, Row(false, "internal_error", message, |s.dicts|));
      QuietStep(s, q, w);
    }
  }

  lemma ProceedKeepsInv(s: Proto, w: nat)
    requires Inv(s)
    ensures Inv(OnProceed(s, w)) && Grow(s, OnProceed(s, w))
  {
    var q := OnProceed(s, w);
    if w in s.deliveries && s.deliveries[w].Dispatching? {
      var id := s.deliveries[w].id;
      if id in s.inflight && Live(s, s.inflight[id]) {
        assert Registered(s, id);
        QuietStep(s, q, w);
      } else {
        var t := |s.tasks|;
        forall other
          ensures Registered(q, other)
        {
          assert Registered(s, other);
        }
        forall x
          ensures LiveIsRegistered(q, x)
        {
          assert LiveIsRegistered(s, x);
        }
        forall x | x in q.deliveries
          ensures DeliveryOk(q, x)
        {
          if x != w {
            DeliveryStays(s, q, x);
          }
        }
        forall x: nat | x < |q.tasks|
          ensures ResultOk(q, x)
        {
          if x < t && s.tasks[x].status.Done? {
            ResultStays(s, q, x);
          }
        }
      }
    }
  }

  lemma CancelKeepsInv(s: Proto, w: nat)
    requires Inv(s)
    ensures Inv(OnCancel(s, w)) && Grow(s, OnCancel(s, w))
  {
    var q := OnCancel(s, w);
    if w in s.deliveries {
      match s.deliveries[w]
      case Dispatching(id) => QuietStep(s, q, w);
      case Waiting(id, t, m) =>
        forall other
          ensures Registered(q, other)
        {
          assert Registered(s, other);
        }
        forall x
          ensures LiveIsRegistered(q, x)
        {
          assert LiveIsRegistered(s, x);
        }
        forall x | x in q.deliveries
          ensures DeliveryOk(q, x)
        {
          if x != w || q.deliveries == s.deliveries {
            DeliveryStays(s, q, x);
          }
        }
        forall x: nat | x < |q.tasks|
          ensures ResultOk(q, x)
        {
          assert ResultOk(s, x);
        }
      case _ =>
    }
  }

  lemma CompleteKeepsInv(s: Proto, t: nat, ending: Ending)
    requires Inv(s)
    ensures Inv(OnComplete(s, t, ending)) && Grow(s, OnComplete(s, t, ending))
  {
    var q := OnComplete(s, t, ending);
    if q != s {
      forall other
        ensures Registered(q, other)
      {
        assert Registered(s, other);
      }
      forall x
        ensures LiveIsRegistered(q, x)
      {
        assert LiveIsRegistered(s, x);
      }
      forall x | x in q.deliveries
        ensures DeliveryOk(q, x)
      {
        DeliveryStays(s, q, x);
      }
      forall x: nat | x < |q.tasks|
        ensures ResultOk(q, x)
      {
        if s.tasks[x].status.Done? {
          ResultStays(s, q, x);
        }
      }
    }
  }

  function Popped(inflight: map<string, nat>, id: string, t: nat): map<string, nat> {
    if id in inflight && inflight[id] == t then inflight - {id} else inflight
  }

  /** A waiter of a finished task leaves: at most that task's own registration goes with it. */
  lemma LeaveStep(s: Proto, q: Proto, w: nat, id: string, t: nat)
    requires Inv(s) && Awaits(s, w, t) && s.deliveries[w].id == id && !Live(s, t)
    requires Grow(s, q) && q.tasks == s.tasks && q.inflight == Popped(s.inflight, id, t) && TableOk(q)
    requires w in q.deliveries && q.deliveries == s.deliveries[w := q.deliveries[w]] && DeliveryOk(q, w)
    ensures Inv(q)
  {
    assert DeliveryOk(s, w);
    forall other
      ensures Registered(q, other)
    {
      assert Registered(s, other);
    }
    forall x
      ensures LiveIsRegistered(q, x)
    {
      assert LiveIsRegistered(s, x);
    }
    forall x | x in q.deliveries
      ensures DeliveryOk(q, x)
    {
      if x != w {
        DeliveryStays(s, q, x);
      }
    }
    forall x: nat | x < |q.tasks|
      ensures ResultOk(q, x)
    {
      if s.tasks[x].status.Done? {
        ResultStays(s, q, x);
      }
    }
  }

  /** What the leaving waiter writes is in order: its own row, if any, and the table. */
  lemma WakeWrites(s: Proto, w: nat)
    requires Inv(s) && w in s.deliveries && s.deliveries[w].Waiting? && !Live(s, s.deliveries[w].task)
    ensures var q := OnWake(s, w);
            && Grow(s, q) && TableOk(q) && DeliveryOk(q, w)
            && (q.deliveries[w].Finished? ==>
                  q.deliveries[w].id in ToMap(q.rows) && ToMap(q.rows)[q.deliveries[w].id] == q.deliveries[w].row)
  {
    var q, id, t := OnWake(s, w), s.deliveries[w].id, s.deliveries[w].task;
    assert DeliveryOk(s, w);
    assert ResultOk(s, t);
    var o := s.tasks[t].status.outcome;
    if s.deliveries[w].mustCancel || o.Cancelled? {
    } else if o.Returned? {
      TableRemembers(s, q, id, Row(true, "", "", o.result));
    } else {
      TableRemembers(s, q, id, Row(false, o.code, o.message, |s.dicts|));
    }
  }

  lemma WakeKeepsInv(s: Proto, w: nat)
    requires Inv(s)
    ensures Inv(OnWake(s, w)) && Grow(s, OnWake(s, w))
  {
    if w in s.deliveries && s.deliveries[w].Waiting? && !Live(s, s.deliveries[w].task) {
      assert DeliveryOk(s, w);
      WakeWrites(s, w);
      LeaveStep(s, OnWake(s, w), w, s.deliveries[w].id, s.deliveries[w].task);
    }
  }

  lemma StepKeepsInv(s: Proto, e: Event)
    requires Inv(s)
    ensures Inv(Step(s, e)) && Grow(s, Step(s, e))
  {
    match e
    case Begin(w, id, refusal) => BeginKeepsInv(s, w, id, refusal);
    case Proceed(w) => ProceedKeepsInv(s, w);
    case ProgressFails(w, message) => ProgressFailsKeepsInv(s, w, message);
    case Cancel(w) => CancelKeepsInv(s, w);
    case Complete(t, ending) => CompleteKeepsInv(s, t, ending);
    case Wake(w) => WakeKeepsInv(s, w);
  }

  lemma {:induction false} RunKeepsInv(s: Proto, events: seq<Event>)
    requires Inv(s)
    ensures Inv(Run(s, events))
  {
    if events != [] {
      RunKeepsInv(s, events[..|events| - 1]);
      StepKeepsInv(Run(s, events[..|events| - 1]), events[|events| - 1]);
    }
  }

  /** A table as remember_command_result leaves it, over the dicts it refers to, is a good start. */
  lemma InitIsGood(rows: Dict<Row>, dicts: seq<JsonDict>)
    requires Unique(rows) && |rows| <= MAX_ENTRIES
    requires forall id :: id in ToMap(rows) ==> ToMap(rows)[id].result < |dicts|
    ensures Inv(Init(rows, dicts))
  {
  }
}
