/** event_buffer.py and the flush loop: events queue up, leave in batches, and each batch is sent once or lost. */
module EventBuffer {
  const MAX_BATCH: int := 100

  /** A Python slice bound: negative counts from the end, and both ends are clipped. */
  function Bound(k: int, n: nat): (b: nat)
    ensures b <= n && (0 <= k <= n ==> b == k)
  {
    if k > n then n else if k >= 0 then k else if n + k >= 0 then n + k else 0
  }

  class EventBuffer<E> {
    var items: seq<E>

    constructor ()
      ensures items == []
    {
      items := [];
    }

    method Add(event: E)
      modifies this
      ensures items == old(items) + [event]
    {
      items := items + [event];
    }

    /** Nothing is dropped, repeated or reordered, whatever the bound; a non-negative bound is kept and used up. */
    method Drain(maxItems: int) returns (chunk: seq<E>)
      modifies this
      ensures chunk + items == old(items)
      ensures maxItems >= 0 ==> |chunk| == if |old(items)| <= maxItems then |old(items)| else maxItems
      ensures |chunk| == Bound(maxItems, |old(items)|)
    {
      if items == [] {
        return [];
      }
      chunk := items[..Bound(maxItems, |items|)];
      items := items[Bound(maxItems, |items|)..];
    }

    /** One turn of _event_flush_loop up to the send: the batch to send, if there is one. */
    method TakeBatch(ghost q: Queue<E>) returns (batch: seq<E>)
      requires q.items == items && q.pending == []
      modifies this
      ensures Step(q, Take(MAX_BATCH)) == q.(items := items, pending := batch, drained := q.drained + [batch])
    {
      batch := Drain(MAX_BATCH);
      assert batch == q.items[..Bound(MAX_BATCH, |q.items|)];
    }
  }

  // ---------------------------------------------------------------------------------------------
  // Whole runs: events come in at any moment, also while a batch is on its way
  // ---------------------------------------------------------------------------------------------

  datatype Queue<E> = Queue(added: seq<E>, items: seq<E>, drained: seq<seq<E>>, pending: seq<E>, batches: seq<seq<E>>)

  datatype Happening<E> = Added(event: E) | Take(limit: int) | SendReturned | SendRaised

  function Empty<E>(): Queue<E> {
    Queue([], [], [], [], [])
  }

  function Step<E>(q: Queue<E>, h: Happening<E>): Queue<E> {
    match h
    case Added(e) => q.(added := q.added + [e], items := q.items + [e])
    case Take(limit) =>
      if q.pending != [] then q
      else
        var k := Bound(limit, |q.items|);
        q.(drained := q.drained + [q.items[..k]], pending := q.items[..k], items := q.items[k..])
    case SendReturned => if q.pending == [] then q else q.(pending := [], batches := q.batches + [q.pending])
    case SendRaised => q.(pending := [])
  }

  function Run<E>(hs: seq<Happening<E>>): Queue<E> {
    if hs == [] then Empty() else Step(Run(hs[..|hs| - 1]), hs[|hs| - 1])
  }

  function Flat<E>(batches: seq<seq<E>>): seq<E> {
    if batches == [] then [] else Flat(batches[..|batches| - 1]) + batches[|batches| - 1]
  }

  lemma FlatSnoc<E>(batches: seq<seq<E>>, b: seq<E>)
    ensures Flat(batches + [b]) == Flat(batches) + b
  {
    assert (batches + [b])[..|batches|] == batches;
  }

  lemma Regroup<E>(a: seq<E>, b: seq<E>, c: seq<E>)
    ensures a + (b + c) == a + b + c
  {
  }

  /** Conservation: in every run, all drained batches followed by the buffer are all added events, in order. */
  lemma {:induction false} NothingLostInTheBuffer<E>(hs: seq<Happening<E>>)
    ensures var q := Run(hs); Flat(q.drained) + q.items == q.added
  {
    if hs != [] {
      var q, h := Run(hs[..|hs| - 1]), hs[|hs| - 1];
      NothingLostInTheBuffer(hs[..|hs| - 1]);
      match h
      case Added(e) => Regroup(Flat(q.drained), q.items, [e]);
      case Take(limit) =>
        if q.pending == [] {
          var k := Bound(limit, |q.items|);
          FlatSnoc(q.drained, q.items[..k]);
          Regroup(Flat(q.drained), q.items[..k], q.items[k..]);
          assert q.items[..k] + q.items[k..] == q.items;
        }
      case _ =>
    }
  }

  /** The events at the marked positions, in order. */
  function Picked<E>(xs: seq<E>, keep: seq<bool>): seq<E>
    requires |xs| == |keep|
  {
    if xs == [] then []
    else
      var n := |xs| - 1;
      Picked(xs[..n], keep[..n]) + if keep[n] then [xs[n]] else []
  }

  lemma {:induction false} PickedAppend<E>(xs: seq<E>, keep: seq<bool>, ys: seq<E>, all: bool)
    requires |xs| == |keep|
    ensures var more := seq(|ys|, _ => all); Picked(xs + ys, keep + more) == Picked(xs, keep) + if all then ys else []
  {
    var more := seq(|ys|, _ => all);
    if ys == [] {
      assert xs + ys == xs && keep + more == keep;
    } else {
      var n := |ys| - 1;
      PickedAppend(xs, keep, ys[..n], all);
      assert (xs + ys)[..|xs| + n] == xs + ys[..n];
      assert (keep + more)[..|xs| + n] == keep + seq(n, _ => all);
      assert ys == ys[..n] + [ys[n]];
    }
  }

  function Total<E>(q: Queue<E>): nat {
    |Flat(q.batches)| + |q.pending| + |q.items|
  }

  /** The events that were on their way when a send raised. */
  function Lost<E>(hs: seq<Happening<E>>): nat {
    if hs == [] then 0
    else Lost(hs[..|hs| - 1]) + if hs[|hs| - 1].SendRaised? then |Run(hs[..|hs| - 1]).pending| else 0
  }

  /** What was sent is what was added at the marked positions; the rest is on its way or still buffered. */
  ghost predicate Accounted<E>(q: Queue<E>, keep: seq<bool>) {
    && |keep| <= |q.added|
    && q.added[|keep|..] == q.pending + q.items
    && Picked(q.added[..|keep|], keep) == Flat(q.batches)
  }

  /** A send that ends settles the positions of its batch: all sent, or all lost. */
  lemma Settle<E>(q: Queue<E>, keep: seq<bool>, sent: bool)
    requires Accounted(q, keep) && q.pending != []
    ensures Accounted(Step(q, if sent then SendReturned else SendRaised), keep + seq(|q.pending|, _ => sent))
  {
    var settled := q.added[..|keep|];
    var more := keep + seq(|q.pending|, _ => sent);
    PickedAppend(settled, keep, q.pending, sent);
    FlatSnoc(q.batches, q.pending);
    assert q.added == settled + (q.pending + q.items);
    assert q.added[..|more|] == settled + q.pending;
    assert q.added[|more|..] == q.items;
    assert [] + q.items == q.items;
    assert Flat(q.batches) + [] == Flat(q.batches);
  }

  lemma Queued<E>(q: Queue<E>, keep: seq<bool>, h: Happening<E>)
    requires Accounted(q, keep) && (h.Added? || h.Take?)
    ensures Accounted(Step(q, h), keep)
  {
    match h
    case Added(e) =>
      assert (q.added + [e])[..|keep|] == q.added[..|keep|];
      assert (q.added + [e])[|keep|..] == q.added[|keep|..] + [e];
      assert (q.pending + q.items) + [e] == q.pending + (q.items + [e]);
    case Take(limit) =>
      if q.pending == [] {
        var k := Bound(limit, |q.items|);
        assert q.pending + q.items == q.items == q.items[..k] + q.items[k..];
      }
  }

  /**
   Each added event is sent at most once and in the order of adding, even when sends raise: what was sent
   is what was added at some set of positions, and the rest is still pending, still buffered, or was in a
   batch whose send raised.
   */
  lemma {:induction false} SentAtMostOnceInOrder<E>(hs: seq<Happening<E>>) returns (keep: seq<bool>)
    ensures Accounted(Run(hs), keep)
    ensures Total(Run(hs)) + Lost(hs) == |Run(hs).added|
  {
    if hs == [] {
      keep := [];
    } else {
      var before := hs[..|hs| - 1];
      var q, h := Run(before), hs[|hs| - 1];
      keep := SentAtMostOnceInOrder(before);
      if h.Added? || h.Take? {
        Queued(q, keep, h);
      } else if q.pending != [] {
        Settle(q, keep, h.SendReturned?);
        keep := keep + seq(|q.pending|, _ => h.SendReturned?);
        FlatSnoc(q.batches, q.pending);
      }
    }
  }

  /** The flush loop asks for 100: no frame carries more than that, and none is empty. */
  lemma {:induction false} FramesAreSmall<E>(hs: seq<Happening<E>>)
    requires forall i :: 0 <= i < |hs| && hs[i].Take? ==> hs[i].limit == MAX_BATCH
    ensures |Run(hs).pending| <= MAX_BATCH
    ensures forall b :: b in Run(hs).batches ==> 0 < |b| <= MAX_BATCH
    ensures forall b :: b in Run(hs).drained ==> |b| <= MAX_BATCH
  {
    if hs != [] {
      FramesAreSmall(hs[..|hs| - 1]);
    }
  }

  /** When no send raises, everything added is sent, on its way, or still buffered. */
  lemma NothingLostWithoutFailures<E>(hs: seq<Happening<E>>)
    requires Lost(hs) == 0
    ensures var q := Run(hs); Flat(q.batches) + q.pending + q.items == q.added
  {
    var keep := SentAtMostOnceInOrder(hs);
    var q := Run(hs);
    PickedShorter(q.added[..|keep|], keep);
    assert q.added == q.added[..|keep|] + q.added[|keep|..];
  }

  lemma {:induction false} PickedShorter<E>(xs: seq<E>, keep: seq<bool>)
    requires |xs| == |keep|
    ensures |Picked(xs, keep)| <= |xs| && (|Picked(xs, keep)| == |xs| ==> Picked(xs, keep) == xs)
  {
    if xs != [] {
      var n := |xs| - 1;
      PickedShorter(xs[..n], keep[..n]);
      assert xs == xs[..n] + [xs[n]];
    }
  }

  /** One event, taken off the buffer by the flush loop whose send then raises, is nowhere any more. */
  lemma RaisedSendLosesEvent<E>(e: E)
    ensures var q := Run([Added(e), Take(MAX_BATCH), SendRaised]);
            q.added == [e] && q.items == [] && q.pending == [] && q.batches == [] && Lost([Added(e), Take(MAX_BATCH), SendRaised]) == 1
  {
    var a, b, c := [Added(e)], [Added(e), Take(MAX_BATCH)], [Added(e), Take(MAX_BATCH), SendRaised];
    assert c[..2] == b && b[..1] == a && a[..0] == [];
    assert Run(a) == Queue([e], [e], [], [], []);
    assert Bound(MAX_BATCH, 1) == 1 && [e][..1] == [e] && [e][1..] == [];
    assert Run(b) == Queue([e], [], [[e]], [e], []);
    assert Lost(b) == Lost(a) == 0;
  }
}
