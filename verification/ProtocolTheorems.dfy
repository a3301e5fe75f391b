/** What the command protocol guarantees in every interleaving of deliveries, suspensions, completions and cancellations. */
module ProtocolTheorems {
  import opened Prelude
  import opened OrderedDict
  import opened StateStore
  import opened Protocol
  import opened ProtocolInvariant

  /** A state some run reaches from a table that was left by an earlier process. */
  ghost predicate Reachable(s: Proto) {
    exists rows, dicts, events :: Reaches(rows, dicts, events, s)
  }

  ghost predicate Reaches(rows: Dict<Row>, dicts: seq<JsonDict>, events: seq<Event>, s: Proto) {
    && Unique(rows) && |rows| <= MAX_ENTRIES
    && (forall id :: id in ToMap(rows) ==> ToMap(rows)[id].result < |dicts|)
    && s == Run(Init(rows, dicts), events)
  }

  lemma ReachableInv(s: Proto)
    requires Reachable(s)
    ensures Inv(s)
  {
    var rows, dicts, events :| Reaches(rows, dicts, events, s);
    InitIsGood(rows, dicts);
    RunKeepsInv(Init(rows, dicts), events);
  }

  /**
   Mutual exclusion: an id has at most one unfinished execution, and if it has one, `_inflight` holds
   exactly that task and the delivery that started it still awaits it.
   */
  lemma AtMostOneLiveRun(s: Proto, t: nat)
    requires Reachable(s) && Live(s, t)
    ensures forall u: nat :: Live(s, u) && s.tasks[u].id == s.tasks[t].id ==> u == t
    ensures s.tasks[t].id in s.inflight && s.inflight[s.tasks[t].id] == t
    ensures Awaits(s, s.tasks[t].creator, t)
  {
    ReachableInv(s);
    assert LiveIsRegistered(s, t);
    assert Registered(s, s.tasks[t].id);
    forall u: nat | Live(s, u) && s.tasks[u].id == s.tasks[t].id
      ensures u == t
    {
      assert LiveIsRegistered(s, u);
    }
  }

  /** Nothing but the end of its run takes a waiter out of `await task`: not even its own cancellation. */
  lemma WaitersStayUntilDone(s: Proto, e: Event, w: nat, t: nat)
    requires Awaits(s, w, t) && Live(s, t)
    ensures Awaits(Step(s, e), w, t)
  {
  }

  /** A waiter's `finally` never removes a live registration, its own task's or another's. */
  lemma FinallyKeepsLive(s: Proto, w: nat, id: string)
    requires Reachable(s) && id in s.inflight && Live(s, s.inflight[id])
    ensures id in OnWake(s, w).inflight && OnWake(s, w).inflight[id] == s.inflight[id]
  {
    ReachableInv(s);
    assert w in s.deliveries ==> DeliveryOk(s, w);
  }

  /** Registrations do not leak: once no delivery awaits anything, the table of running commands is empty. */
  lemma QuiescenceEmptiesInflight(s: Proto)
    requires Reachable(s) && forall w :: w in s.deliveries ==> !s.deliveries[w].Waiting?
    ensures s.inflight == map[] && forall t: nat :: !Live(s, t)
  {
    ReachableInv(s);
    forall id
      ensures id !in s.inflight
    {
      assert Registered(s, id);
    }
    forall t
      ensures !Live(s, t)
    {
      assert LiveIsRegistered(s, t);
    }
  }

  /** A dispatched delivery starts a run exactly when no run of its id is live; otherwise it joins that run. */
  lemma StartsIffNoneLive(s: Proto, w: nat)
    requires Reachable(s) && w in s.deliveries && s.deliveries[w].Dispatching?
    ensures var q, id := OnProceed(s, w), s.deliveries[w].id;
            && (|q.tasks| > |s.tasks| <==> forall t: nat :: Live(s, t) ==> s.tasks[t].id != id)
            && (forall t: nat :: Live(s, t) && s.tasks[t].id == id ==> q.tasks == s.tasks && Awaits(q, w, t))
  {
    ReachableInv(s);
    var id := s.deliveries[w].id;
    assert Registered(s, id);
    forall t: nat | Live(s, t) && s.tasks[t].id == id
      ensures OnProceed(s, w).tasks == s.tasks && Awaits(OnProceed(s, w), w, t)
    {
      assert LiveIsRegistered(s, t);
    }
  }

  predicate SameContent(s: Proto, a: Row, b: Row) {
    && a.success == b.success && a.code == b.code && a.message == b.message
    && a.result < |s.dicts| && b.result < |s.dicts|
    && Unmarked(s.dicts[a.result]) == Unmarked(s.dicts[b.result])
    && (a.success ==> a.result == b.result)
  }

  lemma SameRun(s: Proto, v: nat, w: nat, t: nat)
    requires Inv(s)
    requires v in s.deliveries && s.deliveries[v].Finished? && s.deliveries[v].how == Ran(t)
    requires w in s.deliveries && s.deliveries[w].Finished? && s.deliveries[w].how == Ran(t)
    ensures SameContent(s, s.deliveries[v].row, s.deliveries[w].row)
  {
    assert DeliveryOk(s, v) && DeliveryOk(s, w);
    assert Reports(s, t, s.deliveries[v].row) && Reports(s, t, s.deliveries[w].row);
  }

  /** Join: all deliveries that return from one run return the same result, up to the replay mark; on success they share the dict. */
  lemma JoinedDeliveriesAgree(s: Proto, v: nat, w: nat, t: nat)
    requires Reachable(s)
    requires v in s.deliveries && s.deliveries[v].Finished? && s.deliveries[v].how == Ran(t)
    requires w in s.deliveries && s.deliveries[w].Finished? && s.deliveries[w].how == Ran(t)
    ensures SameContent(s, s.deliveries[v].row, s.deliveries[w].row)
    ensures t < |s.tasks| && s.deliveries[v].id == s.deliveries[w].id == s.tasks[t].id
  {
    ReachableInv(s);
    assert DeliveryOk(s, v) && DeliveryOk(s, w);
    SameRun(s, v, w, t);
  }

  predicate Stored(s: Proto, w: nat)
    requires w in s.deliveries && s.deliveries[w].Finished?
  {
    var id := s.deliveries[w].id;
    id in ToMap(s.rows) && ToMap(s.rows)[id] == s.deliveries[w].row
  }

  lemma BeginStores(s: Proto, w: nat, id: string, refusal: Option<string>)
    requires Inv(s) && w !in s.deliveries && id != ""
    ensures var q := OnBegin(s, w, id, refusal); w in q.deliveries && (q.deliveries[w].Finished? ==> Stored(q, w))
  {
    BeginKeepsInv(s, w, id, refusal);
    if id !in ToMap(s.rows) && refusal.Some? {
      var q := OnBegin(s, w, id, refusal);
      TableRemembers(s, q, id, q.deliveries[w].row);
    }
  }

  lemma ProgressFailsStores(s: Proto, w: nat, message: string)
    requires Inv(s) && w in s.deliveries && s.deliveries[w].Dispatching?
    ensures var q := OnProgressFails(s, w, message); w in q.deliveries && q.deliveries[w].Finished? && Stored(q, w)
  {
    ProgressFailsKeepsInv(s, w, message);
    var q := OnProgressFails(s, w, message);
    TableRemembers(s, q, s.deliveries[w].id, q.deliveries[w].row);
  }

  /** Only three events make a delivery return, and they are its own. */
  lemma ReturnsByOwnEvent(s: Proto, e: Event, w: nat)
    requires w in Step(s, e).deliveries && Step(s, e).deliveries[w].Finished?
    requires !(w in s.deliveries && s.deliveries[w].Finished?)
    ensures (e.Begin? && e.delivery == w && w !in s.deliveries)
            || (e.ProgressFails? && e.delivery == w && w in s.deliveries && s.deliveries[w].Dispatching?)
            || (e.Wake? && e.delivery == w && w in s.deliveries && s.deliveries[w].Waiting? && !Live(s, s.deliveries[w].task))
  {
  }

  /** Whatever a delivery with an id returns is stored under its id at that moment: results, refusals and replays alike. */
  lemma ReturnedRowIsStored(s: Proto, e: Event, w: nat)
    requires Reachable(s) && w in Step(s, e).deliveries && Step(s, e).deliveries[w].Finished?
    requires e.Begin? ==> e.id != ""
    requires !(w in s.deliveries && s.deliveries[w].Finished?)
    ensures Stored(Step(s, e), w)
  {
    ReachableInv(s);
    ReturnsByOwnEvent(s, e, w);
    match e
    case Begin(_, id, refusal) => BeginStores(s, w, id, refusal);
    case ProgressFails(_, message) => ProgressFailsStores(s, w, message);
    case Wake(_) => WakeWrites(s, w);
  }

  /**
   Replay: a delivery begun while a row is stored starts no run, registers nothing, writes no row, and
   returns the stored row; it changes the replay mark of that row's dict and nothing else.
   */
  lemma ReplayRunsNothing(s: Proto, w: nat, id: string, refusal: Option<string>)
    requires Reachable(s) && w !in s.deliveries && id != "" && id in ToMap(s.rows)
    ensures var q := OnBegin(s, w, id, refusal);
            && q.tasks == s.tasks && q.inflight == s.inflight && q.rows == s.rows
            && q.deliveries == s.deliveries[w := Finished(id, Replayed, ToMap(s.rows)[id])]
            && |q.dicts| == |s.dicts|
            && (forall r :: 0 <= r < |s.dicts| && r != ToMap(s.rows)[id].result ==> q.dicts[r] == s.dicts[r])
            && ToMap(s.rows)[id].result < |s.dicts|
            && q.dicts[ToMap(s.rows)[id].result] == s.dicts[ToMap(s.rows)[id].result]["replayed" := "true"]
  {
    ReachableInv(s);
  }

  /** Replaying again returns the same row over the same dicts: repeated replays are identical. */
  lemma ReplaysAreIdentical(s: Proto, v: nat, w: nat, id: string, a: Option<string>, b: Option<string>)
    requires Reachable(s) && v !in s.deliveries && w !in s.deliveries && v != w && id != "" && id in ToMap(s.rows)
    ensures var q := OnBegin(s, v, id, a);
            var r := OnBegin(q, w, id, b);
            r.dicts == q.dicts && r.rows == q.rows && r.deliveries[w] == q.deliveries[v]
  {
    ReplayRunsNothing(s, v, id, a);
    var q := OnBegin(s, v, id, a);
    var ref := ToMap(s.rows)[id].result;
    assert q.dicts[ref]["replayed" := "true"] == q.dicts[ref];
  }

  /**
   At most once ever is not what the code does.  Two deliveries of one id that are both at the first
   progress send: the first runs to its end and leaves; the second has passed the result table
   already, finds nothing in flight, and runs the command again.
   */
  lemma OverlapRunsTwice(s: Proto, v: nat, w: nat, id: string, result: JsonDict)
    requires v != w && v in s.deliveries && w in s.deliveries
    requires s.deliveries[v] == s.deliveries[w] == Dispatching(id) && id !in s.inflight
    ensures var t := |s.tasks|;
            var q := OnProceed(OnWake(OnComplete(OnProceed(s, v), t, Gives(result)), v), w);
            && |q.tasks| == t + 2 && q.tasks[t].id == q.tasks[t + 1].id == id
            && q.tasks[t].status.Done? && Live(q, t + 1) && q.deliveries[v].Finished?
  {
    var t := |s.tasks|;
    var s1 := OnProceed(s, v);
    assert s1.tasks == s.tasks + [Task(id, v, false, Running)] && s1.inflight == s.inflight[id := t];
    assert s1.deliveries[v] == Waiting(id, t, false) && s1.deliveries[w] == Dispatching(id);
    var s2 := OnComplete(s1, t, Gives(result));
    assert s2.tasks == s.tasks + [Task(id, v, false, Done(Returned(|s.dicts|, result)))];
    assert s2.inflight == s1.inflight && s2.deliveries == s1.deliveries;
    var s3 := OnWake(s2, v);
    assert s3.tasks == s2.tasks && id !in s3.inflight;
    assert s3.deliveries[v].Finished? && s3.deliveries[w] == Dispatching(id);
  }

  /** The situation arises from an empty agent: the backend delivers one command twice in a row. */
  lemma OverlapArises()
    ensures var s := Run(Init([], []), [Begin(0, "c", None), Begin(1, "c", None)]);
            s.deliveries == map[0 := Dispatching("c"), 1 := Dispatching("c")] && s.inflight == map[] && s.tasks == []
  {
    var e := [Begin(0, "c", None), Begin(1, "c", None)];
    assert e[..1] == [Begin(0, "c", None)] && e[..1][..0] == [];
    assert Run(Init([], []), e[..1]) == OnBegin(Init([], []), 0, "c", None);
  }
}
