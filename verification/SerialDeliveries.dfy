/** An order of deliveries in which every command is executed at most once ever, joins and restarts included. */
module SerialDeliveries {
  import opened Prelude
  import opened OrderedDict
  import opened StateStore
  import opened Protocol
  import opened ProtocolInvariant
  import opened Executions

  /** The delivery is inside `handle`. */
  predicate Unfinished(s: Proto, w: nat, id: string) {
    w in s.deliveries && (s.deliveries[w].Dispatching? || s.deliveries[w].Waiting?) && s.deliveries[w].id == id
  }

  /** No row is stored for the id, and `w` is its only delivery inside `handle`. */
  ghost predicate Alone(s: Proto, w: nat, id: string) {
    id !in ToMap(s.rows) && forall v :: Unfinished(s, v, id) ==> v == w
  }

  /**
   A dispatched delivery goes on while a run of its id is unfinished, which it joins, or when it is alone;
   no waiter is cancelled; a restart finds the rows of everything executed; and no ids but these are in play.
   */
  ghost predicate Orderly(l: Life, m: Moment, ids: set<string>) {
    match m
    case Happens(Begin(_, id, _)) => id in ids
    case Happens(Proceed(w)) =>
      w in l.p.deliveries && l.p.deliveries[w].Dispatching? ==>
        IsRunning(l.p, l.p.deliveries[w].id) || Alone(l.p, w, l.p.deliveries[w].id)
    case Happens(Cancel(w)) => w in l.p.deliveries ==> !l.p.deliveries[w].Waiting?
    case Restarts(rows, _) => ToMap(rows).Keys <= ids && forall id :: id in Executed(l) ==> id in ToMap(rows)
    case _ => true
  }

  ghost predicate AllOrderly(l: Life, moments: seq<Moment>, ids: set<string>) {
    moments == [] ||
    (AllOrderly(l, moments[..|moments| - 1], ids) && Orderly(Lived(l, moments[..|moments| - 1]), moments[|moments| - 1], ids))
  }

  /** A finished run has left its row, or its creator is still on the way to storing it. */
  predicate TaskOk(s: Proto, t: nat)
    requires t < |s.tasks|
  {
    && !s.tasks[t].cancelRequested
    && (s.tasks[t].status.Done? ==> !s.tasks[t].status.outcome.Cancelled? && (s.tasks[t].id in ToMap(s.rows) || Awaits(s, s.tasks[t].creator, t)))
  }

  predicate HasKnownId(s: Proto, w: nat, ids: set<string>)
    requires w in s.deliveries
  {
    match s.deliveries[w]
    case Dispatching(id) => id in ids
    case Waiting(id, _, m) => id in ids && !m
    case _ => true
  }

  ghost predicate Kept(l: Life, ids: set<string>) {
    && Inv(l.p) && |ids| <= MAX_ENTRIES && ToMap(l.p.rows).Keys <= ids
    && (forall t :: 0 <= t < |l.p.tasks| ==> TaskOk(l.p, t))
    && (forall w :: w in l.p.deliveries ==> HasKnownId(l.p, w, ids))
    && (forall id :: id in l.past ==> id in ToMap(l.p.rows))
  }

  /** With at most 500 ids in play nothing is evicted. */
  lemma NoEviction(d: Dict<Row>, id: string, row: Row, ids: set<string>)
    requires Unique(d) && ToMap(d).Keys <= ids && id in ids && |ids| <= MAX_ENTRIES
    ensures ToMap(Remember(d, id, row)).Keys == ToMap(d).Keys + {id}
  {
    PutMeaning(d, id, row);
    UniquePositions(Put(d, id, row));
    Subset(ToMap(Put(d, id, row)).Keys, ids);
  }

  /** A finished run has left its row, or its creator still waits. */
  lemma LeavesTrace(s: Proto, t: nat)
    requires Inv(s) && t < |s.tasks| && TaskOk(s, t) && s.tasks[t].status.Done?
    ensures var v, id := s.tasks[t].creator, s.tasks[t].id;
            id in ToMap(s.rows) || (Unfinished(s, v, id) && s.deliveries[v].Waiting?)
  {
    var v := s.tasks[t].creator;
    assert Awaits(s, v, t) ==> DeliveryOk(s, v);
  }

  /** In an orderly step the guard of line 129 lets a run start only for a command that was never executed. */
  lemma NoRerun(l: Life, m: Moment, ids: set<string>, id: string)
    requires Kept(l, ids) && Orderly(l, m, ids)
    ensures !Reruns(l, m, id)
  {
    if m.Happens? && Starts(l.p, m.event, id) && id in Executed(l) && id !in l.past {
      IdsOf(l.p.tasks, id);
      var t :| 0 <= t < |l.p.tasks| && l.p.tasks[t].id == id;
      LeavesTrace(l.p, t);
    }
  }

  /** A step that leaves the tasks alone, drops no row, and lets a delivery leave only with its row stored. */
  lemma TasksStayOk(s: Proto, q: Proto)
    requires forall t :: 0 <= t < |s.tasks| ==> TaskOk(s, t)
    requires q.tasks == s.tasks && ToMap(s.rows).Keys <= ToMap(q.rows).Keys
    requires forall w, t: nat :: Awaits(s, w, t) && !Awaits(q, w, t) && t < |s.tasks| ==> s.tasks[t].id in ToMap(q.rows)
    ensures forall t :: 0 <= t < |q.tasks| ==> TaskOk(q, t)
  {
    forall t | 0 <= t < |q.tasks|
      ensures TaskOk(q, t)
    {
      assert TaskOk(s, t);
      assert Awaits(s, s.tasks[t].creator, t) && !Awaits(q, s.tasks[t].creator, t) ==> s.tasks[t].id in ToMap(q.rows);
    }
  }

  /** Only delivery `w` moves, and the tasks stay as they are. */
  lemma OneMoves(l: Life, q: Proto, w: nat, ids: set<string>)
    requires Kept(l, ids) && Inv(q) && q.tasks == l.p.tasks
    requires ToMap(l.p.rows).Keys <= ToMap(q.rows).Keys <= ids
    requires w in q.deliveries && q.deliveries == l.p.deliveries[w := q.deliveries[w]] && HasKnownId(q, w, ids)
    requires w in l.p.deliveries && l.p.deliveries[w].Waiting? ==> l.p.deliveries[w].id in ToMap(q.rows)
    ensures Kept(l.(p := q), ids)
  {
    if w in l.p.deliveries {
      assert DeliveryOk(l.p, w);
    }
    TasksStayOk(l.p, q);
    forall x | x in q.deliveries
      ensures HasKnownId(q, x, ids)
    {
      assert x != w ==> HasKnownId(l.p, x, ids);
    }
  }

  lemma BeginKeeps(l: Life, w: nat, id: string, refusal: Option<string>, ids: set<string>)
    requires Kept(l, ids) && id in ids
    ensures Kept(l.(p := OnBegin(l.p, w, id, refusal)), ids)
  {
    var q := OnBegin(l.p, w, id, refusal);
    BeginKeepsInv(l.p, w, id, refusal);
    if w !in l.p.deliveries {
      if id != "" && id !in ToMap(l.p.rows) && refusal.Some? {
        NoEviction(l.p.rows, id, q.deliveries[w].row, ids);
      }
      OneMoves(l, q, w, ids);
    }
  }

  lemma ProceedKeeps(l: Life, w: nat, ids: set<string>)
    requires Kept(l, ids)
    ensures Kept(l.(p := OnProceed(l.p, w)), ids)
  {
    var q := OnProceed(l.p, w);
    ProceedKeepsInv(l.p, w);
    if w in l.p.deliveries && l.p.deliveries[w].Dispatching? {
      assert HasKnownId(l.p, w, ids);
      forall x | x in q.deliveries
        ensures HasKnownId(q, x, ids)
      {
        assert x != w ==> HasKnownId(l.p, x, ids);
      }
      forall t | 0 <= t < |q.tasks|
        ensures TaskOk(q, t)
      {
        assert t < |l.p.tasks| ==> TaskOk(l.p, t);
      }
    }
  }

  lemma ProgressFailsKeeps(l: Life, w: nat, message: string, ids: set<string>)
    requires Kept(l, ids)
    ensures Kept(l.(p := OnProgressFails(l.p, w, message)), ids)
  {
    var q := OnProgressFails(l.p, w, message);
    ProgressFailsKeepsInv(l.p, w, message);
    if w in l.p.deliveries && l.p.deliveries[w].Dispatching? {
      assert HasKnownId(l.p, w, ids);
      NoEviction(l.p.rows, l.p.deliveries[w].id, q.deliveries[w].row, ids);
      OneMoves(l, q, w, ids);
    }
  }

  lemma CancelKeeps(l: Life, w: nat, ids: set<string>)
    requires Kept(l, ids) && (w in l.p.deliveries ==> !l.p.deliveries[w].Waiting?)
    ensures Kept(l.(p := OnCancel(l.p, w)), ids)
  {
    CancelKeepsInv(l.p, w);
    if w in l.p.deliveries && l.p.deliveries[w].Dispatching? {
      OneMoves(l, OnCancel(l.p, w), w, ids);
    }
  }

  lemma WakeRow(s: Proto, w: nat)
    requires w in s.deliveries && s.deliveries[w].Waiting? && s.deliveries[w].task < |s.tasks| && !Live(s, s.deliveries[w].task)
    requires !s.deliveries[w].mustCancel && !s.tasks[s.deliveries[w].task].status.outcome.Cancelled?
    ensures var q, id := OnWake(s, w), s.deliveries[w].id;
            && q.tasks == s.tasks && w in q.deliveries && q.deliveries[w].Finished? && q.deliveries[w].id == id
            && q.deliveries == s.deliveries[w := q.deliveries[w]] && q.rows == Remember(s.rows, id, q.deliveries[w].row)
  {
  }

  lemma WakeKeeps(l: Life, w: nat, ids: set<string>)
    requires Kept(l, ids)
    ensures Kept(l.(p := OnWake(l.p, w)), ids)
  {
    WakeKeepsInv(l.p, w);
    if w in l.p.deliveries && l.p.deliveries[w].Waiting? && !Live(l.p, l.p.deliveries[w].task) {
      assert HasKnownId(l.p, w, ids) && DeliveryOk(l.p, w);
      assert TaskOk(l.p, l.p.deliveries[w].task);
      WakeRow(l.p, w);
      NoEviction(l.p.rows, l.p.deliveries[w].id, OnWake(l.p, w).deliveries[w].row, ids);
      OneMoves(l, OnWake(l.p, w), w, ids);
    }
  }

  lemma CompleteKeeps(l: Life, t: nat, ending: Ending, ids: set<string>)
    requires Kept(l, ids)
    ensures Kept(l.(p := OnComplete(l.p, t, ending)), ids)
  {
    var q := OnComplete(l.p, t, ending);
    CompleteKeepsInv(l.p, t, ending);
    if q != l.p {
      assert TaskOk(l.p, t) && LiveIsRegistered(l.p, t) && Registered(l.p, l.p.tasks[t].id);
      forall x | 0 <= x < |q.tasks|
        ensures TaskOk(q, x)
      {
        assert TaskOk(l.p, x);
      }
      forall x | x in q.deliveries
        ensures HasKnownId(q, x, ids)
      {
        assert HasKnownId(l.p, x, ids);
      }
    }
  }

  lemma PassKeeps(l: Life, m: Moment, ids: set<string>)
    requires Kept(l, ids) && Orderly(l, m, ids)
    ensures Kept(Pass(l, m), ids)
  {
    match m
    case Happens(Begin(w, id, refusal)) => BeginKeeps(l, w, id, refusal, ids);
    case Happens(Proceed(w)) => ProceedKeeps(l, w, ids);
    case Happens(ProgressFails(w, message)) => ProgressFailsKeeps(l, w, message, ids);
    case Happens(Cancel(w)) => CancelKeeps(l, w, ids);
    case Happens(Complete(t, ending)) => CompleteKeeps(l, t, ending, ids);
    case Happens(Wake(w)) => WakeKeeps(l, w, ids);
    case Restarts(rows, dicts) =>
      if Loadable(rows, dicts) {
        InitIsGood(rows, dicts);
      }
  }

  lemma {:induction false} AllKeep(l: Life, moments: seq<Moment>, ids: set<string>)
    requires Kept(l, ids) && AllOrderly(l, moments, ids)
    ensures Kept(Lived(l, moments), ids)
  {
    if moments != [] {
      AllKeep(l, moments[..|moments| - 1], ids);
      PassKeeps(Lived(l, moments[..|moments| - 1]), moments[|moments| - 1], ids);
    }
  }

  lemma {:induction false} OrderlyPrefix(l: Life, moments: seq<Moment>, ids: set<string>, k: nat)
    requires AllOrderly(l, moments, ids) && k < |moments|
    ensures AllOrderly(l, moments[..k], ids) && Orderly(Lived(l, moments[..k]), moments[k], ids)
  {
    var n := |moments| - 1;
    if k < n {
      OrderlyPrefix(l, moments[..n], ids, k);
      assert moments[..n][..k] == moments[..k];
    }
  }

  /**
   In an orderly sequence no command is executed twice, ever: deliveries may come at any time and any
   number of times, join the run in flight and be cancelled before they wait, and the agent may restart.
   */
  lemma ExecutedAtMostOnce(l: Life, moments: seq<Moment>, ids: set<string>, id: string)
    requires Kept(l, ids) && Times(l, id) <= 1 && AllOrderly(l, moments, ids)
    ensures Times(Lived(l, moments), id) <= 1
  {
    forall k: nat | k < |moments|
      ensures !RerunAt(l, moments, k, id)
    {
      OrderlyPrefix(l, moments, ids, k);
      AllKeep(l, moments[..k], ids);
      NoRerun(Lived(l, moments[..k]), moments[k], ids, id);
    }
    ExecutedOnceIff(l, moments, id);
  }

  /** Any table with at most 500 ids is a good start. */
  lemma GoodStart(rows: Dict<Row>, dicts: seq<JsonDict>, ids: set<string>)
    requires Loadable(rows, dicts) && ToMap(rows).Keys <= ids && |ids| <= MAX_ENTRIES
    ensures Kept(Life(Init(rows, dicts), []), ids) && forall id :: Times(Life(Init(rows, dicts), []), id) == 0
  {
    InitIsGood(rows, dicts);
    assert Executed(Life(Init(rows, dicts), [])) == [];
  }
}
