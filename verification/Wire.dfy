/** _send_json: concurrent senders share one lock and one counter, which survives restarts in the state file. */
module Wire {
  import opened Prelude
  import opened StateStore

  /** `holder` is the number stamped on the frame whose sender holds the lock; `sent` are the numbers that left. */
  datatype Wire<V> = Wire(process: Process<V>, holder: Option<nat>, sent: seq<nat>)

  datatype Move<V> =
    | Stamp                       // a sender takes the lock and the next number
    | Left                        // its frame leaves, and the lock is free again
    | Raised                      // its send raises or is cancelled, and the lock is free again
    | Touch(state: AgentState<V>) // anything but the counter changes in memory
    | Persist(io: SaveIo)
    | Reboot(io: SaveIo)

  function Counter<V>(w: Wire<V>): nat {
    w.process.memory.txSeq
  }

  /** The counter a process started now would begin with. */
  function Persisted<V>(w: Wire<V>): nat {
    LoadFrom(w.process.disk).txSeq
  }

  function Last(sent: seq<nat>): nat {
    if sent == [] then 0 else sent[|sent| - 1]
  }

  function Step<V>(w: Wire<V>, m: Move<V>): Wire<V> {
    match m
    case Stamp =>
      if w.holder.Some? then w
      else w.(process := w.process.(memory := w.process.memory.(txSeq := Counter(w) + 1)), holder := Some(Counter(w) + 1))
    case Left => if w.holder.None? then w else w.(holder := None, sent := w.sent + [w.holder.value])
    case Raised => w.(holder := None)
    case Touch(s) => w.(process := w.process.(memory := s.(txSeq := Counter(w))))
    case Persist(io) => w.(process := w.process.(disk := SaveTo(w.process.disk, w.process.memory, io)))
    case Reboot(io) => w.(process := Restart(w.process.disk, io), holder := None)
  }

  function Run<V>(w: Wire<V>, moves: seq<Move<V>>): Wire<V> {
    if moves == [] then w else Step(Run(w, moves[..|moves| - 1]), moves[|moves| - 1])
  }

  function Start<V>(disk: Disk<V>, io: SaveIo): Wire<V> {
    Wire(Restart(disk, io), None, [])
  }

  predicate Increasing(sent: seq<nat>) {
    forall i, j :: 0 <= i < j < |sent| ==> sent[i] < sent[j]
  }

  /** No number above the persisted counter has left yet. */
  predicate CaughtUp<V>(w: Wire<V>) {
    Last(w.sent) <= Persisted(w)
  }

  predicate InOrder<V>(w: Wire<V>) {
    && Increasing(w.sent)
    && Last(w.sent) <= Counter(w)
    && (w.holder.Some? ==> w.holder.value == Counter(w) && Last(w.sent) < Counter(w))
    && (forall n :: n in w.sent ==> n > 0)
  }

  /** The process dies only when the state file has caught up with the wire. */
  predicate FlushedRestarts<V>(w: Wire<V>, moves: seq<Move<V>>) {
    moves == [] ||
    (FlushedRestarts(w, moves[..|moves| - 1])
     && (moves[|moves| - 1].Reboot? ==> CaughtUp(Run(w, moves[..|moves| - 1]))))
  }

  lemma StepKeepsOrder<V>(w: Wire<V>, m: Move<V>)
    requires InOrder(w) && (m.Reboot? ==> CaughtUp(w))
    ensures InOrder(Step(w, m))
  {
  }

  /**
   Sequence numbers leave in strictly increasing order, in every interleaving of senders whose sends
   return, raise or are cancelled, and across every restart at which the state file had caught up.
   */
  lemma {:induction false} NumbersIncrease<V>(disk: Disk<V>, io: SaveIo, moves: seq<Move<V>>)
    requires FlushedRestarts(Start(disk, io), moves)
    ensures var w := Run(Start(disk, io), moves); InOrder(w) && Increasing(w.sent)
  {
    if moves != [] {
      NumbersIncrease(disk, io, moves[..|moves| - 1]);
      StepKeepsOrder(Run(Start(disk, io), moves[..|moves| - 1]), moves[|moves| - 1]);
    }
  }

  /** After a crash the numbers go on increasing exactly when the state file had caught up. */
  lemma RestartContinuesIff<V>(w: Wire<V>, io: SaveIo)
    requires InOrder(w)
    ensures Increasing(Run(w, [Reboot(io), Stamp, Left]).sent) <==> CaughtUp(w)
    ensures Last(Run(w, [Reboot(io), Stamp, Left]).sent) == Persisted(w) + 1
  {
    var q := Step(Step(Step(w, Reboot(io)), Stamp), Left);
    Unfold3(w, Reboot(io), Stamp, Left);
    assert q.sent == w.sent + [Persisted(w) + 1];
    if !CaughtUp(w) {
      assert q.sent[|w.sent| - 1] >= q.sent[|w.sent|];
    }
  }

  lemma Unfold3<V>(w: Wire<V>, a: Move<V>, b: Move<V>, c: Move<V>)
    ensures Run(w, [a, b, c]) == Step(Step(Step(w, a), b), c)
  {
    assert [a, b, c][..2] == [a, b] && [a, b][..1] == [a] && [a][..0] == [];
    assert Run(w, []) == w;
    assert Run(w, [a]) == Step(w, a);
    assert Run(w, [a, b]) == Step(Step(w, a), b);
  }

  lemma QuietMove<V>(w: Wire<V>, m: Move<V>)
    requires InOrder(w) && CaughtUp(w) && !m.Left?
    ensures InOrder(Step(w, m)) && CaughtUp(Step(w, m)) && Step(w, m).sent == w.sent
  {
    StepKeepsOrder(w, m);
  }

  /**
   After a shutdown flush that succeeded, the state file stays caught up until a frame leaves, whatever
   else still happens: senders that only fail, further saves that fail or not, further restarts.
   */
  lemma {:induction false} FlushLasts<V>(w: Wire<V>, moves: seq<Move<V>>)
    requires InOrder(w) && forall i :: 0 <= i < |moves| ==> !moves[i].Left?
    ensures var q := Run(Step(w, Persist(Saved)), moves); CaughtUp(q) && InOrder(q) && q.sent == w.sent
  {
    var p := Step(w, Persist(Saved));
    if moves == [] {
      StepKeepsOrder(w, Persist(Saved));
      assert Run(p, moves) == p;
    } else {
      var n := |moves| - 1;
      FlushLasts(w, moves[..n]);
      QuietMove(Run(p, moves[..n]), moves[n]);
    }
  }

  /** However a send ends, the lock is free again, and the next sender gets the next number. */
  lemma LockIsReleased<V>(w: Wire<V>, end: Move<V>)
    requires w.holder.Some? && (end.Left? || end.Raised?)
    ensures var q := Step(Step(w, end), Stamp); q.holder == Some(Counter(w) + 1) && Counter(q) == Counter(w) + 1
    ensures Step(w, end).sent == if end.Left? then w.sent + [w.holder.value] else w.sent
    ensures Step(w, Stamp) == w
  {
  }

  /** Without the flush a crash repeats a number: two frames sent since the last save, and one after the restart. */
  lemma CrashRepeatsANumber<V>(w: Wire<V>, io: SaveIo)
    requires InOrder(w) && CaughtUp(w) && Persisted(w) == Counter(w) && w.holder.None?
    ensures var q := Run(Run(w, [Stamp, Left, Stamp]), [Left, Reboot(io), Stamp]);
            q.holder == Some(Counter(w) + 1) && Counter(w) + 1 in q.sent && Last(q.sent) == Counter(w) + 2
  {
    Unfold3(w, Stamp, Left, Stamp);
    Unfold3(Run(w, [Stamp, Left, Stamp]), Left, Reboot(io), Stamp);
    var p := Step(Step(Step(w, Stamp), Left), Stamp);
    assert p.sent == w.sent + [Counter(w) + 1] && p.holder == Some(Counter(w) + 2) && p.process.disk == w.process.disk;
    var q := Step(Step(Step(p, Left), Reboot(io)), Stamp);
    assert q.sent == p.sent + [Counter(w) + 2];
    assert q.sent[|w.sent|] == Counter(w) + 1;
  }

  /** The sending side of StreamClient. */
  class Sender<V> {
    const store: Store<V>
    var holder: Option<nat>
    var sent: seq<nat>

    function Abs(): Wire<V>
      reads this, store
    {
      Wire(store.Abs(), holder, sent)
    }

    constructor (store: Store<V>)
      ensures this.store == store && Abs() == Wire(store.Abs(), None, [])
    {
      this.store, holder, sent := store, None, [];
    }

    /** Lines 259-261: the lock is taken, the envelope gets its number. */
    method Begin() returns (seqNo: nat)
      requires holder.None?
      modifies this`holder, store`state
      ensures Abs() == Step(old(Abs()), Stamp) && holder == Some(seqNo)
    {
      seqNo := store.NextSeq();
      holder := Some(seqNo);
    }

    /** Line 262: the send ends, and the lock is released either way. */
    method End(left: bool)
      requires holder.Some?
      modifies this
      ensures Abs() == Step(old(Abs()), if left then Left else Raised)
    {
      if left {
        sent := sent + [holder.value];
      }
      holder := None;
    }
  }
}
