/** How often a command is executed, over whole runs and across restarts, and exactly when it is more than once. */
module Executions {
  import opened Prelude
  import opened OrderedDict
  import opened StateStore
  import opened Protocol
  import opened ProtocolInvariant

  /** The agent over restarts: the process that runs now, and the ids whose runs earlier ones started. */
  datatype Life = Life(p: Proto, past: seq<string>)

  datatype Moment = Happens(event: Event) | Restarts(rows: Dict<Row>, dicts: seq<JsonDict>)

  /** A table that remember_command_result may have left in the state file. */
  predicate Loadable(rows: Dict<Row>, dicts: seq<JsonDict>) {
    Unique(rows) && |rows| <= MAX_ENTRIES && forall id :: id in ToMap(rows) ==> ToMap(rows)[id].result < |dicts|
  }

  function Ids(tasks: seq<Task>): seq<string> {
    if tasks == [] then [] else Ids(tasks[..|tasks| - 1]) + [tasks[|tasks| - 1].id]
  }

  /** The ids of all executions started so far, in order. */
  function Executed(l: Life): seq<string> {
    l.past + Ids(l.p.tasks)
  }

  function Count(ids: seq<string>, id: string): nat {
    if ids == [] then 0 else Count(ids[..|ids| - 1], id) + if ids[|ids| - 1] == id then 1 else 0
  }

  function Times(l: Life, id: string): nat {
    Count(Executed(l), id)
  }

  function Pass(l: Life, m: Moment): Life {
    match m
    case Happens(e) => l.(p := Step(l.p, e))
    case Restarts(rows, dicts) => if Loadable(rows, dicts) then Life(Init(rows, dicts), Executed(l)) else l
  }

  function Lived(l: Life, moments: seq<Moment>): Life {
    if moments == [] then l else Pass(Lived(l, moments[..|moments| - 1]), moments[|moments| - 1])
  }

  /** A run of the id is unfinished. */
  predicate IsRunning(s: Proto, id: string) {
    exists t :: 0 <= t < |s.tasks| && s.tasks[t].id == id && s.tasks[t].status.Running?
  }

  /** Line 129: the delivery finds no run of its id in flight, or one that is done. */
  predicate Starts(s: Proto, e: Event, id: string) {
    e.Proceed? && e.delivery in s.deliveries && s.deliveries[e.delivery] == Dispatching(id) && !IsRunning(s, id)
  }

  /** The command is started although it was started before. */
  predicate Reruns(l: Life, m: Moment, id: string) {
    m.Happens? && Starts(l.p, m.event, id) && id in Executed(l)
  }

  predicate RerunAt(l: Life, moments: seq<Moment>, k: nat, id: string)
    requires k < |moments|
  {
    Reruns(Lived(l, moments[..k]), moments[k], id)
  }

  lemma {:induction false} CountAppend(a: seq<string>, b: seq<string>, id: string)
    ensures Count(a + b, id) == Count(a, id) + Count(b, id)
  {
    if b == [] {
      assert a + b == a;
    } else {
      CountAppend(a, b[..|b| - 1], id);
      assert (a + b)[..|a + b| - 1] == a + b[..|b| - 1];
    }
  }

  lemma {:induction false} CountedIffThere(ids: seq<string>, id: string)
    ensures Count(ids, id) > 0 <==> id in ids
  {
    if ids != [] {
      CountedIffThere(ids[..|ids| - 1], id);
      assert ids == ids[..|ids| - 1] + [ids[|ids| - 1]];
    }
  }

  lemma {:induction false} IdsOf(tasks: seq<Task>, id: string)
    ensures id in Ids(tasks) <==> exists t :: 0 <= t < |tasks| && tasks[t].id == id
  {
    if tasks != [] {
      var n := |tasks| - 1;
      IdsOf(tasks[..n], id);
      if exists t :: 0 <= t < n && tasks[t].id == id {
        var t :| 0 <= t < n && tasks[t].id == id;
        assert tasks[..n][t].id == id;
      }
    }
  }

  lemma {:induction false} SameIds(a: seq<Task>, b: seq<Task>)
    requires |a| == |b| && forall t :: 0 <= t < |a| ==> a[t].id == b[t].id
    ensures Ids(a) == Ids(b)
  {
    if a != [] {
      SameIds(a[..|a| - 1], b[..|b| - 1]);
    }
  }

  lemma RegisteredIffRunning(s: Proto, id: string)
    requires Inv(s)
    ensures IsRunning(s, id) <==> id in s.inflight && Live(s, s.inflight[id])
  {
    assert Registered(s, id);
    if IsRunning(s, id) {
      var t :| 0 <= t < |s.tasks| && s.tasks[t].id == id && s.tasks[t].status.Running?;
      assert LiveIsRegistered(s, t);
    }
  }

  /** A step starts a run of an id exactly under the guard of line 129, and one run only. */
  lemma StepExecutes(s: Proto, e: Event, id: string)
    requires Inv(s)
    ensures Count(Ids(Step(s, e).tasks), id) == Count(Ids(s.tasks), id) + if Starts(s, e, id) then 1 else 0
  {
    StepKeepsInv(s, e);
    var q := Step(s, e);
    if e.Proceed? && e.delivery in s.deliveries && s.deliveries[e.delivery].Dispatching? {
      var i := s.deliveries[e.delivery].id;
      RegisteredIffRunning(s, i);
      if !IsRunning(s, i) {
        assert q.tasks[..|q.tasks| - 1] == s.tasks;
        assert Ids(q.tasks) == Ids(s.tasks) + [i];
        CountAppend(Ids(s.tasks), [i], id);
        CountOne(i, id);
      }
    } else {
      SameTasks(s, e);
      SameIds(s.tasks, q.tasks);
    }
  }

  lemma CountOne(i: string, id: string)
    ensures Count([i], id) == if i == id then 1 else 0
  {
    assert [i][..0] == [];
  }

  lemma SameTasks(s: Proto, e: Event)
    requires !(e.Proceed? && e.delivery in s.deliveries && s.deliveries[e.delivery].Dispatching?)
    ensures |Step(s, e).tasks| == |s.tasks|
  {
  }

  lemma PassExecutes(l: Life, m: Moment, id: string)
    requires Inv(l.p)
    ensures Inv(Pass(l, m).p)
    ensures Times(Pass(l, m), id) == Times(l, id) + if m.Happens? && Starts(l.p, m.event, id) then 1 else 0
  {
    match m
    case Happens(e) =>
      StepKeepsInv(l.p, e);
      StepExecutes(l.p, e, id);
      CountAppend(l.past, Ids(l.p.tasks), id);
      CountAppend(l.past, Ids(Step(l.p, e).tasks), id);
    case Restarts(rows, dicts) =>
      if Loadable(rows, dicts) {
        InitIsGood(rows, dicts);
        assert Executed(Pass(l, m)) == Executed(l);
      }
  }

  lemma {:induction false} LiveKeepsInv(l: Life, moments: seq<Moment>)
    requires Inv(l.p)
    ensures Inv(Lived(l, moments).p)
  {
    if moments != [] {
      LiveKeepsInv(l, moments[..|moments| - 1]);
      PassExecutes(Lived(l, moments[..|moments| - 1]), moments[|moments| - 1], "");
    }
  }

  /** Executions are never undone. */
  lemma PassCounts(l: Life, m: Moment, id: string)
    requires Inv(l.p) && Times(l, id) <= 1
    ensures Times(Pass(l, m), id) <= 1 <==> !Reruns(l, m, id)
  {
    PassExecutes(l, m, id);
    CountedIffThere(Executed(l), id);
  }

  predicate NeverReruns(l: Life, moments: seq<Moment>, id: string) {
    forall k: nat :: k < |moments| ==> !RerunAt(l, moments, k, id)
  }

  lemma NeverRerunsSnoc(l: Life, moments: seq<Moment>, id: string)
    requires moments != []
    ensures var n := |moments| - 1;
            NeverReruns(l, moments, id) <==> NeverReruns(l, moments[..n], id) && !Reruns(Lived(l, moments[..n]), moments[n], id)
  {
    var n := |moments| - 1;
    forall k: nat | k < n
      ensures RerunAt(l, moments, k, id) <==> RerunAt(l, moments[..n], k, id)
    {
      assert moments[..k] == moments[..n][..k];
    }
    assert RerunAt(l, moments, n, id) <==> Reruns(Lived(l, moments[..n]), moments[n], id);
  }

  /**
   Exactly when a command is executed at most once ever, over any sequence of deliveries, cancellations,
   completions and restarts, from any table: no delivery that has passed the result table gets past line
   129 when a run of its id was started before, by this process or an earlier one, and none is unfinished.
   */
  lemma {:induction false} ExecutedOnceIff(l: Life, moments: seq<Moment>, id: string)
    requires Inv(l.p) && Times(l, id) <= 1
    ensures Times(Lived(l, moments), id) <= 1 <==> NeverReruns(l, moments, id)
  {
    if moments != [] {
      var n := |moments| - 1;
      var before := Lived(l, moments[..n]);
      ExecutedOnceIff(l, moments[..n], id);
      LiveKeepsInv(l, moments[..n]);
      NeverRerunsSnoc(l, moments, id);
      PassExecutes(before, moments[n], id);
      if Times(before, id) <= 1 {
        PassCounts(before, moments[n], id);
      }
    }
  }

  // ---------------------------------------------------------------------------------------------
  // How it comes about
  // ---------------------------------------------------------------------------------------------

  lemma Two(l: Life, a: Moment, b: Moment)
    ensures Lived(l, [a, b]) == Pass(Pass(l, a), b)
  {
    assert [a, b][..1] == [a] && [a][..0] == [];
    assert Lived(l, []) == l && Lived(l, [a]) == Pass(l, a);
  }

  /** A delivery that comes while its command is not running executes it exactly when no row is stored: the table is all that prevents a repetition. */
  lemma SoleDeliveryRunsIff(l: Life, w: nat, id: string)
    requires Inv(l.p) && w !in l.p.deliveries && id != "" && !IsRunning(l.p, id)
    ensures Times(Lived(l, [Happens(Begin(w, id, None)), Happens(Proceed(w))]), id) ==
            Times(l, id) + if id in ToMap(l.p.rows) then 0 else 1
  {
    var a, b := Happens(Begin(w, id, None)), Happens(Proceed(w));
    Two(l, a, b);
    PassExecutes(l, a, id);
    PassExecutes(Pass(l, a), b, id);
    assert Pass(l, a).p.tasks == l.p.tasks;
    assert IsRunning(Pass(l, a).p, id) <==> IsRunning(l.p, id);
  }

  lemma {:induction false} LiveAppend(l: Life, a: seq<Moment>, b: seq<Moment>)
    ensures Lived(l, a + b) == Lived(Lived(l, a), b)
  {
    if b == [] {
      assert a + b == a;
    } else {
      LiveAppend(l, a, b[..|b| - 1]);
      assert (a + b)[..|a + b| - 1] == a + b[..|b| - 1];
    }
  }

  const FRESH := Life(Init([], []), [])
  const DELIVERED := [Happens(Begin(0, "c", None)), Happens(Proceed(0))]

  const FIRST := Proto([Task("c", 0, false, Running)], map["c" := 0], map[0 := Waiting("c", 0, false)], [], [])

  lemma FirstSteps()
    ensures OnProceed(OnBegin(Init([], []), 0, "c", None), 0) == FIRST
  {
    assert OnBegin(Init([], []), 0, "c", None) == Proto([], map[], map[0 := Dispatching("c")], [], []);
  }

  lemma FirstIds()
    ensures Ids(FIRST.tasks) == ["c"] && Count(["c"], "c") == 1
  {
    CountOne("c", "c");
    assert FIRST.tasks[..0] == [];
  }

  /** The first delivery of "c" to a new agent. */
  lemma FirstDelivery()
    ensures Lived(FRESH, DELIVERED) == Life(FIRST, []) && Times(Life(FIRST, []), "c") == 1 && Inv(FIRST)
  {
    Two(FRESH, Happens(Begin(0, "c", None)), Happens(Proceed(0)));
    FirstSteps();
    FirstIds();
    assert Executed(Life(FIRST, [])) == ["c"];
    InitIsGood([], []);
    LiveKeepsInv(FRESH, DELIVERED);
  }

  lemma EndsCancelled()
    ensures var m := Lived(Lived(FRESH, DELIVERED), [Happens(Cancel(0)), Happens(Complete(0, IsCancelled)), Happens(Wake(0))]);
            && Inv(m.p) && m.p.tasks == [Task("c", 0, true, Done(Cancelled))] && m.p.deliveries == map[0 := Dead("c")]
            && m.p.rows == [] && m.past == []
  {
    FirstDelivery();
    var l := Lived(FRESH, DELIVERED);
    var c, d, e := Happens(Cancel(0)), Happens(Complete(0, IsCancelled)), Happens(Wake(0));
    LiveKeepsInv(l, [c, d, e]);
    assert [c, d, e][..2] == [c, d];
    Two(l, c, d);
    assert Pass(l, c).p == l.p.(tasks := [Task("c", 0, true, Running)]);
    assert Pass(Pass(l, c), d).p == l.p.(tasks := [Task("c", 0, true, Done(Cancelled))]);
  }

  /** Cancellation: the waiter and with it the run are cancelled, no row is stored, and the next delivery runs the command again. */
  lemma CancellationRunsTwice()
    ensures Times(Lived(FRESH, DELIVERED
                               + [Happens(Cancel(0)), Happens(Complete(0, IsCancelled)), Happens(Wake(0))]
                               + [Happens(Begin(1, "c", None)), Happens(Proceed(1))]), "c") == 2
  {
    FirstDelivery();
    EndsCancelled();
    var l := Lived(FRESH, DELIVERED);
    var cde := [Happens(Cancel(0)), Happens(Complete(0, IsCancelled)), Happens(Wake(0))];
    LiveAppend(FRESH, DELIVERED, cde);
    LiveAppend(FRESH, DELIVERED + cde, [Happens(Begin(1, "c", None)), Happens(Proceed(1))]);
    SameIds(Lived(l, cde).p.tasks, l.p.tasks);
    SoleDeliveryRunsIff(Lived(l, cde), 1, "c");
  }

  /** A crash: the run has ended, its row is not in the state file yet, and the next process runs the command again. */
  lemma CrashRunsTwice()
    ensures Times(Lived(FRESH, DELIVERED
                              + [Happens(Complete(0, Gives(map[]))), Restarts([], [])]
                              + [Happens(Begin(0, "c", None)), Happens(Proceed(0))]), "c") == 2
  {
    FirstDelivery();
    var l := Lived(FRESH, DELIVERED);
    var c, d := Happens(Complete(0, Gives(map[]))), Restarts([], []);
    LiveAppend(FRESH, DELIVERED, [c, d]);
    LiveAppend(FRESH, DELIVERED + [c, d], DELIVERED);
    Two(l, c, d);
    PassExecutes(l, c, "c");
    PassExecutes(Pass(l, c), d, "c");
    SoleDeliveryRunsIff(Lived(l, [c, d]), 0, "c");
  }

  // Eviction: five hundred other ids push the row out of the table

  function Name(n: nat): string {
    seq(n, i => 'x')
  }

  function Refusals(n: nat): seq<Moment> {
    if n == 0 then [] else Refusals(n - 1) + [Happens(Begin(n, Name(n), Some("")))]
  }

  function RefusedRows(n: nat, dicts: nat): Dict<Row> {
    if n == 0 then [] else RefusedRows(n - 1, dicts) + [(Name(n), Row(false, "policy_violation", "", dicts + n - 1))]
  }

  lemma {:induction false} RefusedNames(n: nat, dicts: nat)
    ensures |RefusedRows(n, dicts)| == n
    ensures forall k :: k in ToMap(RefusedRows(n, dicts)) ==> 'c' !in k && |k| <= n
  {
    if n > 0 {
      RefusedNames(n - 1, dicts);
      Snoc(RefusedRows(n - 1, dicts), RefusedRows(n, dicts)[n - 1]);
    }
  }

  lemma {:induction false} AppendMeaning(a: Dict<Row>, b: Dict<Row>)
    ensures ToMap(a + b).Keys == ToMap(a).Keys + ToMap(b).Keys
  {
    if b == [] {
      assert a + b == a;
    } else {
      AppendMeaning(a, b[..|b| - 1]);
      assert a + b == (a + b[..|b| - 1]) + [b[|b| - 1]];
      Snoc(a + b[..|b| - 1], b[|b| - 1]);
      Snoc(b[..|b| - 1], b[|b| - 1]);
      assert b == b[..|b| - 1] + [b[|b| - 1]];
    }
  }

  /** The table is the newest 500 of the first row and n refusals, and nothing else of note has changed. */
  predicate Filled(l: Life, q: Life, first: (string, Row), n: nat) {
    && q.past == l.past && q.p.tasks == l.p.tasks && |q.p.dicts| == |l.p.dicts| + n
    && (forall w :: w in q.p.deliveries ==> w <= n)
    && Unique([first] + RefusedRows(n, |l.p.dicts|)) && q.p.rows == Newest([first] + RefusedRows(n, |l.p.dicts|))
  }

  lemma {:induction false} AfterRefusals(l: Life, first: (string, Row), n: nat)
    requires l.p.rows == [first] && first.0 == "c" && l.p.deliveries.Keys == {0}
    ensures Filled(l, Lived(l, Refusals(n)), first, n)
  {
    if n == 0 {
      NotFilledYet(l, first);
    } else {
      AfterRefusals(l, first, n - 1);
      assert Refusals(n)[..|Refusals(n)| - 1] == Refusals(n - 1);
      OneMoreRefusal(l, Lived(l, Refusals(n - 1)), first, n);
    }
  }

  lemma NotFilledYet(l: Life, first: (string, Row))
    requires l.p.rows == [first] && l.p.deliveries.Keys == {0}
    ensures Filled(l, l, first, 0)
  {
    assert [first] + [] == [first] && [first][..0] == [];
  }

  lemma OneMoreRefusal(l: Life, q: Life, first: (string, Row), n: nat)
    requires n > 0 && first.0 == "c" && Filled(l, q, first, n - 1)
    ensures Filled(l, Pass(q, Happens(Begin(n, Name(n), Some("")))), first, n)
  {
    NextRefusal(first, n, |l.p.dicts|);
    Refuse(q.p, n, Name(n));
  }

  lemma Refuse(p: Proto, w: nat, id: string)
    requires w !in p.deliveries && id != "" && id !in ToMap(p.rows)
    ensures var q := Step(p, Begin(w, id, Some("")));
            && q.tasks == p.tasks && q.rows == Remember(p.rows, id, Row(false, "policy_violation", "", |p.dicts|))
            && |q.dicts| == |p.dicts| + 1 && q.deliveries.Keys == p.deliveries.Keys + {w}
  {
  }

  lemma NewName(first: (string, Row), n: nat, dicts: nat)
    requires n > 0 && first.0 == "c"
    ensures Name(n) != "" && Name(n) !in ToMap([first] + RefusedRows(n - 1, dicts))
  {
    RefusedNames(n - 1, dicts);
    AppendMeaning([first], RefusedRows(n - 1, dicts));
    Snoc([], first);
    assert [] + [first] == [first];
    assert Name(n)[0] == 'x' && |Name(n)| == n;
  }

  lemma NextRefusal(first: (string, Row), n: nat, dicts: nat)
    requires n > 0 && first.0 == "c" && Unique([first] + RefusedRows(n - 1, dicts))
    ensures var d, e, row := [first] + RefusedRows(n - 1, dicts), [first] + RefusedRows(n, dicts), Row(false, "policy_violation", "", dicts + n - 1);
            Name(n) != "" && Name(n) !in ToMap(Newest(d)) && Remember(Newest(d), Name(n), row) == Newest(e) && Unique(e)
  {
    var d, row := [first] + RefusedRows(n - 1, dicts), Row(false, "policy_violation", "", dicts + n - 1);
    NewName(first, n, dicts);
    NewestKeeps(d, Name(n));
    RememberNewId(d, Name(n), row);
    Snoc(d, (Name(n), row));
    assert [first] + RefusedRows(n, dicts) == d + [(Name(n), row)];
  }

  lemma NewestKeeps(d: Dict<Row>, id: string)
    requires Unique(d) && id !in ToMap(d)
    ensures id !in ToMap(Newest(d))
  {
    assert Newest(d) == d[|d| - |Newest(d)|..];
    DropKeepsUnique(d, |d| - |Newest(d)|);
  }

  /** Eviction: with 500 refused commands of other ids in between, a command that ended well is executed again. */
  lemma EvictionRunsTwice()
    ensures Times(Lived(FRESH, DELIVERED
                              + [Happens(Complete(0, Gives(map[]))), Happens(Wake(0))]
                              + Refusals(MAX_ENTRIES)
                              + [Happens(Begin(501, "c", None)), Happens(Proceed(501))]), "c") == 2
  {
    FirstDelivery();
    var l := Lived(FRESH, DELIVERED);
    var c, d, again := Happens(Complete(0, Gives(map[]))), Happens(Wake(0)), [Happens(Begin(501, "c", None)), Happens(Proceed(501))];
    LiveAppend(FRESH, DELIVERED, [c, d]);
    LiveAppend(FRESH, DELIVERED + [c, d], Refusals(MAX_ENTRIES));
    LiveAppend(FRESH, DELIVERED + [c, d] + Refusals(MAX_ENTRIES), again);
    EndsWell();
    var m := Lived(l, [c, d]);
    var first := m.p.rows[0];
    AfterRefusals(m, first, MAX_ENTRIES);
    var q := Lived(m, Refusals(MAX_ENTRIES));
    RefusedNames(MAX_ENTRIES, |m.p.dicts|);
    var refused := RefusedRows(MAX_ENTRIES, |m.p.dicts|);
    assert ([first] + refused)[1..] == refused;
    assert "c"[0] == 'c';
    assert "c" !in ToMap(q.p.rows);
    LiveKeepsInv(m, Refusals(MAX_ENTRIES));
    assert Executed(q) == Executed(m);
    SoleDeliveryRunsIff(q, 501, "c");
  }

  lemma EndsWell()
    ensures var m := Lived(Lived(FRESH, DELIVERED), [Happens(Complete(0, Gives(map[]))), Happens(Wake(0))]);
            && Inv(m.p) && |m.p.rows| == 1 && m.p.rows[0].0 == "c" && m.p.deliveries.Keys == {0}
            && !IsRunning(m.p, "c") && Times(m, "c") == 1
  {
    FirstDelivery();
    var l := Lived(FRESH, DELIVERED);
    var c, d := Happens(Complete(0, Gives(map[]))), Happens(Wake(0));
    Two(l, c, d);
    PassExecutes(l, c, "c");
    PassExecutes(Pass(l, c), d, "c");
    var p := l.p.(tasks := [Task("c", 0, false, Done(Returned(0, map[])))], dicts := [map[]]);
    assert Pass(l, c).p == p;
    assert OnWake(p, 0) == Succeeded(p.(inflight := map[]), 0, "c", 0, 0);
    assert Remember([], "c", Row(true, "", "", 0)) == [("c", Row(true, "", "", 0))];
  }
}
