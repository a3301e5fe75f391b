/** A Python dict with string keys: it keeps insertion order, and rewriting a key keeps its place. */
module OrderedDict {
  type Dict<V> = seq<(string, V)>

  /** The keys and values, without the order. */
  function ToMap<V>(d: Dict<V>): map<string, V> {
    if d == [] then map[] else ToMap(d[..|d| - 1])[d[|d| - 1].0 := d[|d| - 1].1]
  }

  predicate Unique<V>(d: Dict<V>) {
    d == [] || (Unique(d[..|d| - 1]) && d[|d| - 1].0 !in ToMap(d[..|d| - 1]))
  }

  /** d[k] = v */
  function Put<V>(d: Dict<V>, k: string, v: V): Dict<V> {
    if d == [] then [(k, v)]
    else if d[|d| - 1].0 == k then d[..|d| - 1] + [(k, v)]
    else if k in ToMap(d) then Put(d[..|d| - 1], k, v) + [d[|d| - 1]]
    else d + [(k, v)]
  }

  /** d.pop(k, None) */
  function Pop<V>(d: Dict<V>, k: string): Dict<V> {
    if d == [] then []
    else if d[|d| - 1].0 == k then d[..|d| - 1]
    else Pop(d[..|d| - 1], k) + [d[|d| - 1]]
  }

  lemma Snoc<V>(d: Dict<V>, e: (string, V))
    ensures ToMap(d + [e]) == ToMap(d)[e.0 := e.1]
    ensures Unique(d + [e]) <==> Unique(d) && e.0 !in ToMap(d)
  {
    assert (d + [e])[..|d|] == d;
  }

  /** The positions of a dict with unique keys are its entries: each key sits at exactly one of them. */
  lemma {:induction false} UniquePositions<V>(d: Dict<V>)
    requires Unique(d)
    ensures |ToMap(d)| == |d|
    ensures forall i :: 0 <= i < |d| ==> d[i].0 in ToMap(d) && ToMap(d)[d[i].0] == d[i].1
    ensures forall i, j :: 0 <= i < j < |d| ==> d[i].0 != d[j].0
  {
    if d != [] {
      var n := |d| - 1;
      UniquePositions(d[..n]);
      assert ToMap(d).Keys == ToMap(d[..n]).Keys + {d[n].0};
      assert forall i :: 0 <= i < n ==> d[..n][i] == d[i];
    }
  }

  lemma {:induction false} Position<V>(d: Dict<V>, k: string) returns (i: nat)
    requires k in ToMap(d)
    ensures i < |d| && d[i].0 == k
  {
    var n := |d| - 1;
    if d[n].0 == k {
      i := n;
    } else {
      i := Position(d[..n], k);
    }
  }

  /** Assignment in place: a key that is there keeps its position, a new one goes to the end. */
  lemma {:induction false} PutMeaning<V>(d: Dict<V>, k: string, v: V)
    requires Unique(d)
    ensures Unique(Put(d, k, v)) && ToMap(Put(d, k, v)) == ToMap(d)[k := v]
    ensures k !in ToMap(d) ==> Put(d, k, v) == d + [(k, v)]
  {
    if d == [] {
      Snoc(d, (k, v));
    } else {
      var n := |d| - 1;
      if d[n].0 == k {
        Snoc(d[..n], (k, v));
        assert ToMap(d[..n])[k := v] == ToMap(d)[k := v];
      } else if k in ToMap(d) {
        PutMeaning(d[..n], k, v);
        Snoc(Put(d[..n], k, v), d[n]);
        assert ToMap(d[..n])[k := v][d[n].0 := d[n].1] == ToMap(d)[k := v];
      } else {
        Snoc(d, (k, v));
      }
    }
  }

  lemma {:induction false} PutInPlace<V>(d: Dict<V>, k: string, v: V)
    requires Unique(d) && k in ToMap(d)
    ensures |Put(d, k, v)| == |d|
    ensures forall i :: 0 <= i < |d| ==> Put(d, k, v)[i] == if d[i].0 == k then (k, v) else d[i]
  {
    var n := |d| - 1;
    if d[n].0 == k {
      UniquePositions(d);
    } else {
      PutInPlace(d[..n], k, v);
      assert forall i :: 0 <= i < n ==> d[..n][i] == d[i];
    }
  }

  lemma {:induction false} PopMeaning<V>(d: Dict<V>, k: string)
    requires Unique(d)
    ensures Unique(Pop(d, k)) && ToMap(Pop(d, k)) == ToMap(d) - {k}
  {
    if d != [] {
      var n := |d| - 1;
      PopMeaning(d[..n], k);
      if d[n].0 == k {
        assert ToMap(d[..n]) == ToMap(d) - {k};
      } else {
        Snoc(Pop(d[..n], k), d[n]);
        assert (ToMap(d[..n]) - {k})[d[n].0 := d[n].1] == ToMap(d) - {k};
      }
    }
  }

  /** Popping the oldest key drops the first element. */
  lemma {:induction false} PopFirst<V>(d: Dict<V>)
    requires Unique(d) && d != []
    ensures Pop(d, d[0].0) == d[1..]
  {
    if |d| > 1 {
      var n := |d| - 1;
      UniquePositions(d);
      PopFirst(d[..n]);
      assert d[1..] == d[..n][1..] + [d[n]];
    }
  }

  lemma {:induction false} DropKeepsUnique<V>(d: Dict<V>, k: nat)
    requires Unique(d) && k <= |d|
    ensures Unique(d[k..])
    ensures forall x :: x in ToMap(d[k..]) ==> x in ToMap(d) && ToMap(d)[x] == ToMap(d[k..])[x]
  {
    if k < |d| {
      var n := |d| - 1;
      DropKeepsUnique(d[..n], k);
      assert d[k..] == d[..n][k..] + [d[n]];
      Snoc(d[..n][k..], d[n]);
    }
  }

  // ---------------------------------------------------------------------------------------------
  // Sorting by key, as json.dump(sort_keys=True) and sorted(env.items()) do
  // ---------------------------------------------------------------------------------------------

  /** Python's order on strings: by code point. */
  predicate Before(a: string, b: string) {
    b != "" && (a == "" || a[0] < b[0] || (a[0] == b[0] && Before(a[1..], b[1..])))
  }

  predicate AllBefore<V>(d: Dict<V>, k: string) {
    forall x :: x in ToMap(d) ==> Before(x, k)
  }

  predicate Sorted<V>(d: Dict<V>) {
    d == [] || (Sorted(d[..|d| - 1]) && AllBefore(d[..|d| - 1], d[|d| - 1].0))
  }

  /** Insert a pair after the last smaller key of a sorted dict. */
  function Insert<V>(d: Dict<V>, e: (string, V)): Dict<V> {
    if d != [] && Before(e.0, d[|d| - 1].0) then Insert(d[..|d| - 1], e) + [d[|d| - 1]] else d + [e]
  }

  function SortByKey<V>(d: Dict<V>): Dict<V> {
    if d == [] then [] else Insert(SortByKey(d[..|d| - 1]), d[|d| - 1])
  }

  lemma {:induction false} BeforeTotal(a: string, b: string)
    ensures a == b || Before(a, b) || Before(b, a)
    ensures !(Before(a, b) && Before(b, a))
  {
    if a != "" && b != "" && a[0] == b[0] {
      BeforeTotal(a[1..], b[1..]);
      assert a == [a[0]] + a[1..] && b == [b[0]] + b[1..];
    }
  }

  lemma {:induction false} BeforeTransitive(a: string, b: string, c: string)
    requires Before(a, b) && Before(b, c)
    ensures Before(a, c)
  {
    if a != "" && a[0] == b[0] && b[0] == c[0] {
      BeforeTransitive(a[1..], b[1..], c[1..]);
    }
  }

  lemma SortedSnoc<V>(d: Dict<V>, e: (string, V))
    ensures Sorted(d + [e]) <==> Sorted(d) && AllBefore(d, e.0)
  {
    assert (d + [e])[..|d|] == d;
  }

  lemma {:induction false} InsertMeaning<V>(d: Dict<V>, e: (string, V))
    requires Unique(d) && Sorted(d) && e.0 !in ToMap(d)
    ensures Unique(Insert(d, e)) && Sorted(Insert(d, e)) && ToMap(Insert(d, e)) == ToMap(d)[e.0 := e.1]
    ensures |Insert(d, e)| == |d| + 1
  {
    if d == [] {
      Snoc(d, e);
      SortedSnoc(d, e);
    } else {
      var n := |d| - 1;
      BeforeTotal(d[n].0, e.0);
      if Before(e.0, d[n].0) {
        var q := Insert(d[..n], e);
        InsertMeaning(d[..n], e);
        Snoc(q, d[n]);
        SortedSnoc(q, d[n]);
      } else {
        Snoc(d, e);
        SortedSnoc(d, e);
        forall x | x in ToMap(d)
          ensures Before(x, e.0)
        {
          if x != d[n].0 {
            BeforeTransitive(x, d[n].0, e.0);
          }
        }
      }
    }
  }

  /** Sorting reorders the rows and changes nothing else. */
  lemma {:induction false} SortKeepsRows<V>(d: Dict<V>)
    requires Unique(d)
    ensures Unique(SortByKey(d)) && Sorted(SortByKey(d))
    ensures ToMap(SortByKey(d)) == ToMap(d) && |SortByKey(d)| == |d|
  {
    if d != [] {
      var n := |d| - 1;
      SortKeepsRows(d[..n]);
      InsertMeaning(SortByKey(d[..n]), d[n]);
    }
  }

  /** The first place where the strings differ decides, and a proper prefix comes first. */
  predicate DiffersAt(a: string, b: string, i: nat) {
    i <= |a| && i < |b| && a[..i] == b[..i] && (i == |a| || a[i] < b[i])
  }

  lemma {:induction false} BeforeMeaning(a: string, b: string)
    ensures Before(a, b) <==> exists i: nat :: DiffersAt(a, b, i)
  {
    if b == "" {
    } else if a == "" || a[0] < b[0] {
      assert DiffersAt(a, b, 0);
    } else if a[0] == b[0] {
      BeforeMeaning(a[1..], b[1..]);
      if Before(a, b) {
        var i: nat :| DiffersAt(a[1..], b[1..], i);
        assert a[..i + 1] == [a[0]] + a[1..][..i] && b[..i + 1] == [b[0]] + b[1..][..i];
        assert DiffersAt(a, b, i + 1);
      }
      if exists i: nat :: DiffersAt(a, b, i) {
        var i: nat :| DiffersAt(a, b, i);
        assert a[1..][..i - 1] == a[..i][1..] && b[1..][..i - 1] == b[..i][1..];
        assert DiffersAt(a[1..], b[1..], i - 1);
      }
    } else {
      forall i: nat
        ensures !DiffersAt(a, b, i)
      {
        if 0 < i <= |a| && i < |b| {
          assert a[..i][0] == a[0] && b[..i][0] == b[0];
        }
      }
    }
  }
}
