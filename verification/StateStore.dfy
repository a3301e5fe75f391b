/** state_store.py: the bounded table of finished commands and the state file that survives crashes. */
module StateStore {
  import opened Prelude
  import opened OrderedDict

  const MAX_ENTRIES: nat := 500

  datatype AgentState<V> = AgentState(nodeId: Option<string>, credential: Option<string>, txSeq: nat,
                                      maintenance: bool, draining: bool, workloads: Dict<V>, completed: Dict<V>)

  function Initial<V>(): AgentState<V> {
    AgentState(None, None, 0, false, false, [], [])
  }

  /** remember_command_result, line 108: write the row, then drop the oldest rows beyond 500. */
  function Remember<V>(d: Dict<V>, id: string, row: V): Dict<V> {
    Newest(Put(d, id, row))
  }

  function Newest<V>(d: Dict<V>): Dict<V> {
    if |d| > MAX_ENTRIES then d[|d| - MAX_ENTRIES..] else d
  }

  function RememberAll<V>(d: Dict<V>, rows: Dict<V>): Dict<V> {
    if rows == [] then d
    else
      var n := |rows| - 1;
      Remember(RememberAll(d, rows[..n]), rows[n].0, rows[n].1)
  }

  function Ids<V>(rows: Dict<V>): set<string> {
    ToMap(rows).Keys
  }

  /** The ids whose rows sit after the row of `id`, that is, are evicted later. */
  function After<V>(d: Dict<V>, id: string): set<string> {
    if d == [] || d[|d| - 1].0 == id then {} else After(d[..|d| - 1], id) + {d[|d| - 1].0}
  }

  lemma {:induction false} AfterSize<V>(d: Dict<V>, id: string)
    requires Unique(d) && id in ToMap(d)
    ensures |After(d, id)| < |d| && d[|d| - 1 - |After(d, id)|].0 == id
    ensures After(d, id) <= ToMap(d).Keys
  {
    var n := |d| - 1;
    if d[n].0 != id {
      AfterSize(d[..n], id);
      assert d[n].0 !in After(d[..n], id);
    }
  }

  lemma {:induction false} AfterPut<V>(d: Dict<V>, id: string, k: string, v: V)
    requires Unique(d) && id in ToMap(d)
    ensures After(Put(d, k, v), id) == if k in ToMap(d) then After(d, id) else After(d, id) + {k}
  {
    var n := |d| - 1;
    if d[n].0 == k {
    } else if k in ToMap(d) {
      if d[n].0 != id {
        AfterPut(d[..n], id, k, v);
      }
    } else {
      assert (d + [(k, v)])[..|d|] == d;
    }
  }

  lemma {:induction false} AfterDrop<V>(d: Dict<V>, id: string, k: nat)
    requires Unique(d) && id in ToMap(d) && k + |After(d, id)| < |d|
    ensures id in ToMap(d[k..]) && After(d[k..], id) == After(d, id)
  {
    var n := |d| - 1;
    assert d[k..] == d[..n][k..] + [d[n]];
    assert d[k..][..|d[k..]| - 1] == d[..n][k..];
    if d[n].0 != id {
      AfterSize(d[..n], id);
      assert d[n].0 !in After(d[..n], id);
      AfterDrop(d[..n], id, k);
    }
  }

  /** Only a row among the newest |d| - k is still there once the oldest k are dropped. */
  lemma AmongNewest<V>(d: Dict<V>, id: string, k: nat)
    requires Unique(d) && id in ToMap(d) && k <= |d| && id in ToMap(d[k..])
    ensures k + |After(d, id)| < |d|
  {
    AfterSize(d, id);
    UniquePositions(d);
    var i := Position(d[k..], id);
    assert d[k + i].0 == id;
  }

  /**
   Remembering keeps at most 500 rows, always; it evicts from the old end only, keeps every other row
   as it was, and stores the new one.
   */
  lemma RememberMeaning<V>(d: Dict<V>, id: string, row: V)
    requires Unique(d)
    ensures var r := Remember(d, id, row);
            && Unique(r) && |r| <= MAX_ENTRIES
            && (forall k :: k in ToMap(r) && k != id ==> k in ToMap(d) && ToMap(r)[k] == ToMap(d)[k])
            && (id in ToMap(r) ==> ToMap(r)[id] == row)
  {
    var p, r := Put(d, id, row), Remember(d, id, row);
    PutMeaning(d, id, row);
    assert r == p[|p| - |r|..];
    DropKeepsUnique(p, |p| - |r|);
    assert ToMap(p) == ToMap(d)[id := row];
    forall k | k in ToMap(r)
      ensures if k == id then ToMap(r)[k] == row else k in ToMap(d) && ToMap(r)[k] == ToMap(d)[k]
    {
      assert k in ToMap(p) && ToMap(p)[k] == ToMap(r)[k];
    }
  }

  lemma KeptByNewest<V>(d: Dict<V>, id: string)
    requires Unique(d) && id in ToMap(d)
    ensures id in ToMap(Newest(d)) <==> |After(d, id)| < MAX_ENTRIES
  {
    var r := Newest(d);
    AfterSize(d, id);
    assert r == d[|d| - |r|..];
    if |After(d, id)| < MAX_ENTRIES {
      AfterDrop(d, id, |d| - |r|);
    }
    if id in ToMap(r) {
      AmongNewest(d, id, |d| - |r|);
    }
  }

  lemma AfterOwnPut<V>(d: Dict<V>, id: string, row: V)
    requires Unique(d)
    ensures After(Put(d, id, row), id) == if id in ToMap(d) then After(d, id) else {}
  {
    PutMeaning(d, id, row);
    if id in ToMap(d) {
      AfterPut(d, id, id, row);
    }
  }

  /**
   The row just written is kept exactly when its place is among the newest 500, which is certain when
   there were at most 500 rows before.
   */
  lemma RememberKeepsNewRow<V>(d: Dict<V>, id: string, row: V)
    requires Unique(d)
    ensures id in ToMap(Remember(d, id, row)) <==> id !in ToMap(d) || |After(d, id)| < MAX_ENTRIES
    ensures |d| <= MAX_ENTRIES ==> id in ToMap(Remember(d, id, row))
  {
    PutMeaning(d, id, row);
    AfterOwnPut(d, id, row);
    KeptByNewest(Put(d, id, row), id);
    if id in ToMap(d) {
      AfterSize(d, id);
    }
  }

  /** The oldest k rows are gone: popping the key at position k drops the next one. */
  lemma PopOldest<V>(d: Dict<V>, k: nat)
    requires k < |d| && Unique(d[k..])
    ensures Pop(d[k..], d[k].0) == d[k + 1..] && Unique(d[k + 1..])
  {
    PopFirst(d[k..]);
    PopMeaning(d[k..], d[k].0);
    assert d[k..][1..] == d[k + 1..];
  }

  lemma {:induction false} RememberAllBounded<V>(d: Dict<V>, rows: Dict<V>)
    requires Unique(d) && |d| <= MAX_ENTRIES
    ensures Unique(RememberAll(d, rows)) && |RememberAll(d, rows)| <= MAX_ENTRIES
  {
    if rows != [] {
      var n := |rows| - 1;
      RememberAllBounded(d, rows[..n]);
      RememberMeaning(RememberAll(d, rows[..n]), rows[n].0, rows[n].1);
    }
  }

  /**
   A result survives as long as the rows after it and the other ids remembered since are together at
   most 499 different ids, however often each of them is written.
   */
  lemma {:induction false} ResultSurvives<V>(d: Dict<V>, id: string, rows: Dict<V>, others: set<string>)
    requires Unique(d) && |d| <= MAX_ENTRIES && id in ToMap(d)
    requires After(d, id) + (Ids(rows) - {id}) <= others && |others| < MAX_ENTRIES
    ensures id in ToMap(RememberAll(d, rows)) && After(RememberAll(d, rows), id) <= others
  {
    if rows != [] {
      var n := |rows| - 1;
      var b, k, v := RememberAll(d, rows[..n]), rows[n].0, rows[n].1;
      ResultSurvives(d, id, rows[..n], others);
      RememberAllBounded(d, rows[..n]);
      assert ToMap(rows) == ToMap(rows[..n])[k := v];
      assert k != id ==> k in others;
      SurvivesOne(b, id, k, v, others);
    }
  }

  lemma SurvivesOne<V>(b: Dict<V>, id: string, k: string, v: V, others: set<string>)
    requires Unique(b) && |b| <= MAX_ENTRIES && id in ToMap(b)
    requires After(b, id) <= others && (k != id ==> k in others) && |others| < MAX_ENTRIES
    ensures id in ToMap(Remember(b, k, v)) && After(Remember(b, k, v), id) <= others
  {
    PutMeaning(b, k, v);
    AfterPut(b, id, k, v);
    NewestSurvives(Put(b, k, v), id, others);
  }

  lemma NewestSurvives<V>(p: Dict<V>, id: string, others: set<string>)
    requires Unique(p) && id in ToMap(p) && After(p, id) <= others && |others| < MAX_ENTRIES
    ensures id in ToMap(Newest(p)) && After(Newest(p), id) <= others
  {
    if |p| > MAX_ENTRIES {
      Subset(After(p, id), others);
      AfterDrop(p, id, |p| - MAX_ENTRIES);
    }
  }

  lemma Subset(a: set<string>, b: set<string>)
    requires a <= b
    ensures |a| <= |b|
  {
    assert b == a + (b - a);
  }

  /** A result that has just been remembered for the first time survives any 499 later ids. */
  lemma NewResultSurvives499<V>(d: Dict<V>, id: string, row: V, rows: Dict<V>)
    requires Unique(d) && |d| <= MAX_ENTRIES && id !in ToMap(d) && |Ids(rows) - {id}| < MAX_ENTRIES
    ensures id in ToMap(RememberAll(Remember(d, id, row), rows))
  {
    RememberMeaning(d, id, row);
    RememberKeepsNewRow(d, id, row);
    PutMeaning(d, id, row);
    ResultSurvives(Remember(d, id, row), id, rows, Ids(rows) - {id});
  }

  lemma RememberNewId<V>(d: Dict<V>, id: string, row: V)
    requires Unique(d) && id !in ToMap(d)
    ensures Remember(Newest(d), id, row) == Newest(d + [(id, row)])
  {
    var b := Newest(d);
    var k := |d| - |b|;
    assert d[k..] == b;
    DropKeepsUnique(d, k);
    PutMeaning(b, id, row);
    DropThenAppend(d, k, (id, row));
  }

  lemma DropThenAppend<V>(d: Dict<V>, k: nat, e: (string, V))
    requires k <= |d|
    ensures d[k..] + [e] == (d + [e])[k..]
    ensures k < |d| ==> (d[k..] + [e])[1..] == (d + [e])[k + 1..]
  {
  }

  /** New ids in a row: the table is the newest 500 of everything, so the 500th new id after a row evicts it. */
  lemma {:induction false} FreshIdsEvictOldest<V>(d: Dict<V>, rows: Dict<V>)
    requires Unique(d + rows) && |d| <= MAX_ENTRIES
    ensures RememberAll(d, rows) == Newest(d + rows)
  {
    if rows == [] {
      assert d + rows == d;
    } else {
      var n := |rows| - 1;
      assert d + rows == (d + rows[..n]) + [rows[n]];
      Snoc(d + rows[..n], rows[n]);
      FreshIdsEvictOldest(d, rows[..n]);
      RememberNewId(d + rows[..n], rows[n].0, rows[n].1);
      assert (rows[n].0, rows[n].1) == rows[n];
    }
  }

  // ---------------------------------------------------------------------------------------------
  // The state file
  // ---------------------------------------------------------------------------------------------

  /** What stands in a file: a whole snapshot, or text that does not parse. */
  datatype Content<V> = Torn | Whole(snapshot: AgentState<V>)

  /** How far one save() gets before it returns, fails with OSError or the process dies. */
  datatype SaveIo = Saved | TmpTorn | NotReplaced | NotOpened

  datatype Disk<V> = Disk(file: Option<Content<V>>, tmp: Option<Content<V>>)

  /** json.dump(sort_keys=True) */
  function Serialized<V>(s: AgentState<V>): AgentState<V> {
    s.(workloads := SortByKey(s.workloads), completed := SortByKey(s.completed))
  }

  function SaveTo<V>(disk: Disk<V>, s: AgentState<V>, io: SaveIo): Disk<V> {
    match io
    case NotOpened => disk
    case TmpTorn => disk.(tmp := Some(Torn))
    case NotReplaced => disk.(tmp := Some(Whole(Serialized(s))))
    case Saved => Disk(Some(Whole(Serialized(s))), None)
  }

  /** load(), line 47: a missing file is created, an unreadable one leaves the initial state. */
  function LoadFrom<V>(disk: Disk<V>): AgentState<V> {
    if disk.file.Some? && disk.file.value.Whole? then disk.file.value.snapshot else Initial()
  }

  /** What can happen to a process: its memory changes, it saves, it dies and is started again. */
  datatype ProcessEvent<V> = Change(state: AgentState<V>) | Save(io: SaveIo) | CrashAndRestart(io: SaveIo)

  datatype Process<V> = Process(memory: AgentState<V>, disk: Disk<V>)

  function Restart<V>(disk: Disk<V>, io: SaveIo): Process<V> {
    if disk.file.None? then Process(Initial(), SaveTo(disk, Initial(), io)) else Process(LoadFrom(disk), disk)
  }

  function RunProcess<V>(p: Process<V>, events: seq<ProcessEvent<V>>): Process<V> {
    if events == [] then p
    else
      var q := RunProcess(p, events[..|events| - 1]);
      match events[|events| - 1]
      case Change(s) => q.(memory := s)
      case Save(io) => q.(disk := SaveTo(q.disk, q.memory, io))
      case CrashAndRestart(io) => Restart(q.disk, io)
  }

  /** The memory at the last save that got through, if any did. */
  function LastSaved<V>(p: Process<V>, events: seq<ProcessEvent<V>>): Option<AgentState<V>> {
    if events == [] then None
    else
      var before := events[..|events| - 1];
      match events[|events| - 1]
      case Change(_) => LastSaved(p, before)
      case Save(io) => if io == Saved then Some(RunProcess(p, before).memory) else LastSaved(p, before)
      case CrashAndRestart(io) =>
        if RunProcess(p, before).disk.file.None? && io == Saved then Some(Initial()) else LastSaved(p, before)
  }

  /** The file is whole and is the last save that got through, or what was there before. */
  lemma {:induction false} DiskIsLastSave<V>(p: Process<V>, events: seq<ProcessEvent<V>>)
    ensures RunProcess(p, events).disk.file ==
            match LastSaved(p, events) case Some(s) => Some(Whole(Serialized(s))) case None => p.disk.file
  {
    if events != [] {
      DiskIsLastSave(p, events[..|events| - 1]);
    }
  }

  /** Every field of the loaded state is that of the saved one; the two dicts have the same rows, in key order. */
  ghost predicate SameState<V>(loaded: AgentState<V>, saved: AgentState<V>) {
    && loaded.nodeId == saved.nodeId && loaded.credential == saved.credential && loaded.txSeq == saved.txSeq
    && loaded.maintenance == saved.maintenance && loaded.draining == saved.draining
    && SameRows(loaded.workloads, saved.workloads) && SameRows(loaded.completed, saved.completed)
  }

  ghost predicate SameRows<V>(loaded: Dict<V>, saved: Dict<V>) {
    Unique(saved) ==> ToMap(loaded) == ToMap(saved) && |loaded| == |saved| && Unique(loaded) && Sorted(loaded)
  }

  lemma SerializedIsSame<V>(s: AgentState<V>)
    ensures SameState(Serialized(s), s)
  {
    if Unique(s.workloads) {
      SortKeepsRows(s.workloads);
    }
    if Unique(s.completed) {
      SortKeepsRows(s.completed);
    }
  }

  /**
   Whatever happens, the state file holds the last successfully saved snapshot whole: a process started
   after a crash at any step gets every field back, and the rows of both dicts, sorted by key.
   */
  lemma CrashRecovery<V>(p: Process<V>, events: seq<ProcessEvent<V>>, io: SaveIo)
    ensures var q := RunProcess(p, events);
            && q.disk.file == (match LastSaved(p, events) case Some(s) => Some(Whole(Serialized(s))) case None => p.disk.file)
            && (LastSaved(p, events).Some? ==> SameState(RunProcess(p, events + [CrashAndRestart(io)]).memory, LastSaved(p, events).value))
  {
    var q := RunProcess(p, events);
    DiskIsLastSave(p, events);
    assert (events + [CrashAndRestart(io)])[..|events|] == events;
    assert RunProcess(p, events + [CrashAndRestart(io)]) == Restart(q.disk, io);
    if LastSaved(p, events).Some? {
      SerializedIsSame(LastSaved(p, events).value);
    }
  }

  /** Without a readable state file the agent starts with nothing: no identity, no rows, no mode set, and the counter at zero. */
  lemma StartsFromNothing<V>(disk: Disk<V>, io: SaveIo)
    requires disk.file.None? || disk.file.value.Torn?
    ensures var m := Restart(disk, io).memory;
            && m.nodeId.None? && m.credential.None? && m.txSeq == 0 && !m.maintenance && !m.draining
            && ToMap(m.workloads) == map[] && ToMap(m.completed) == map[]
  {
  }

  /** The store object: the state in memory and the two files it writes. */
  class Store<V> {
    var state: AgentState<V>
    var disk: Disk<V>

    ghost predicate Valid()
      reads this
    {
      Unique(state.completed) && Unique(state.workloads)
    }

    function Abs(): Process<V>
      reads this
    {
      Process(state, disk)
    }

    /** StateStore(path): load(), or save() when there is no file yet. */
    constructor (disk: Disk<V>, io: SaveIo)
      ensures Abs() == Restart(disk, io)
    {
      this.state := LoadFrom(disk);
      this.disk := if disk.file.None? then SaveTo(disk, Initial(), io) else disk;
    }

    /** Write the temporary file, then move it over the state file. */
    method Save(io: SaveIo)
      modifies this`disk
      ensures disk == SaveTo(old(disk), state, io)
    {
      if io == NotOpened {
        return;
      }
      disk := disk.(tmp := Some(if io == TmpTorn then Torn else Whole(Serialized(state))));
      if io == Saved {
        disk := Disk(disk.tmp, None);
      }
    }

    method NextSeq() returns (seqNo: nat)
      modifies this`state
      ensures seqNo == old(state).txSeq + 1 && state == old(state).(txSeq := seqNo)
    {
      state := state.(txSeq := state.txSeq + 1);
      seqNo := state.txSeq;
    }

    /** Lines 113-116: pop the oldest keys until 500 are left. */
    method EvictOldest()
      requires Valid()
      modifies this`state
      ensures Valid() && state == old(state).(completed := Newest(old(state).completed))
    {
      var keys := state.completed;
      var k := 0;
      while k < |keys| - MAX_ENTRIES
        invariant 0 <= k <= |keys| && (k > 0 ==> k <= |keys| - MAX_ENTRIES)
        invariant Valid() && state == old(state).(completed := keys[k..])
      {
        PopOldest(keys, k);
        state := state.(completed := Pop(state.completed, keys[k].0));
        k := k + 1;
      }
    }

    method RememberCommandResult(id: string, row: V, io: SaveIo)
      requires Valid()
      modifies this
      ensures Valid()
      ensures state == old(state).(completed := Remember(old(state).completed, id, row))
      ensures disk == SaveTo(old(disk), state, io)
    {
      PutMeaning(state.completed, id, row);
      state := state.(completed := Put(state.completed, id, row));
      EvictOldest();
      Save(io);
    }

    method SetWorkload(id: string, row: V, io: SaveIo)
      requires Valid()
      modifies this
      ensures Valid()
      ensures ToMap(state.workloads) == ToMap(old(state).workloads)[id := row]
      ensures state == old(state).(workloads := state.workloads) && disk == SaveTo(old(disk), state, io)
    {
      PutMeaning(state.workloads, id, row);
      state := state.(workloads := Put(state.workloads, id, row));
      Save(io);
    }

    method DropWorkload(id: string, io: SaveIo)
      requires Valid()
      modifies this
      ensures Valid()
      ensures ToMap(state.workloads) == ToMap(old(state).workloads) - {id}
      ensures state == old(state).(workloads := state.workloads) && disk == SaveTo(old(disk), state, io)
    {
      PopMeaning(state.workloads, id);
      state := state.(workloads := Pop(state.workloads, id));
      Save(io);
    }
  }
}
