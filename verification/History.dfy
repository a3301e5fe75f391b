/** Which part of the model directory a stage of the pull leaves alone, at every intermediate state. */
module History {
  import opened Prelude
  import opened ModelDir

  datatype Stage = BlobStage | SnapshotStage(touched: set<string>) | RefStage

  /** `b` differs from `a` only where the stage works. */
  predicate SameOutside(stage: Stage, a: Dir, b: Dir) {
    match stage
    case BlobStage => b.snapshots == a.snapshots && b.refs == a.refs
    case SnapshotStage(touched) =>
      && b.blobs == a.blobs && b.refs == a.refs
      && (forall d :: d !in touched && d in a.snapshots ==> d in b.snapshots && b.snapshots[d] == a.snapshots[d])
      && (forall d :: d !in touched && d in b.snapshots ==> d in a.snapshots)
    case RefStage => b.blobs == a.blobs && b.snapshots == a.snapshots
  }

  predicate SameAt(stage: Stage, h0: seq<Dir>, h1: seq<Dir>, i: nat)
    requires h0 != [] && i < |h1|
  {
    SameOutside(stage, h0[|h0| - 1], h1[i])
  }

  /** The history went on from `h0` to `h1`, and all the way only the stage's part has differed from where `h0` ended. */
  predicate Framed(stage: Stage, h0: seq<Dir>, h1: seq<Dir>) {
    && h0 != [] && h0 <= h1
    && forall i: nat :: |h0| <= i < |h1| ==> SameAt(stage, h0, h1, i)
  }

  lemma FramedStep(stage: Stage, h0: seq<Dir>, h1: seq<Dir>, next: Dir)
    requires Framed(stage, h0, h1) && SameOutside(stage, h1[|h1| - 1], next)
    ensures Framed(stage, h0, h1 + [next])
  {
    var h2 := h1 + [next];
    assert |h0| < |h1| ==> SameAt(stage, h0, h1, |h1| - 1);
    forall i: nat | |h0| <= i < |h2|
      ensures SameAt(stage, h0, h2, i)
    {
      if i < |h1| {
        assert SameAt(stage, h0, h1, i);
      }
    }
  }

  lemma FramedTrans(stage: Stage, h0: seq<Dir>, h1: seq<Dir>, h2: seq<Dir>)
    requires Framed(stage, h0, h1) && Framed(stage, h1, h2)
    ensures Framed(stage, h0, h2)
  {
    assert |h0| < |h1| ==> SameAt(stage, h0, h1, |h1| - 1);
    forall i: nat | |h0| <= i < |h2|
      ensures SameAt(stage, h0, h2, i)
    {
      if i < |h1| {
        assert SameAt(stage, h0, h1, i);
      } else {
        assert SameAt(stage, h1, h2, i);
      }
    }
  }

  lemma FramedWiden(narrow: set<string>, wide: set<string>, h0: seq<Dir>, h1: seq<Dir>)
    requires narrow <= wide && Framed(SnapshotStage(narrow), h0, h1)
    ensures Framed(SnapshotStage(wide), h0, h1)
  {
    forall i: nat | |h0| <= i < |h1|
      ensures SameAt(SnapshotStage(wide), h0, h1, i)
    {
      assert SameAt(SnapshotStage(narrow), h0, h1, i);
    }
  }

  lemma FramedEnds(stage: Stage, h0: seq<Dir>, h1: seq<Dir>)
    requires Framed(stage, h0, h1)
    ensures SameOutside(stage, h0[|h0| - 1], h1[|h1| - 1])
  {
    assert |h0| < |h1| ==> SameAt(stage, h0, h1, |h1| - 1);
  }

  /** Since `h0`, whenever the snapshot `name` has been there it has been the complete `tree`; with None it has never been there. */
  predicate WholeOrAbsent(h0: seq<Dir>, h1: seq<Dir>, name: string, tree: Option<Tree>) {
    forall i: nat :: |h0| <= i < |h1| ==> WholeAt(h1, i, name, tree)
  }

  predicate WholeAt(h: seq<Dir>, i: nat, name: string, tree: Option<Tree>)
    requires i < |h|
  {
    name in h[i].snapshots ==> tree == Some(h[i].snapshots[name])
  }

  /** The stage has no business with the snapshot directory `name`. */
  predicate Leaves(stage: Stage, name: string) {
    stage.SnapshotStage? ==> name !in stage.touched
  }

  lemma AbsentStaysAbsent(stage: Stage, h0: seq<Dir>, h1: seq<Dir>, name: string, tree: Option<Tree>)
    requires Framed(stage, h0, h1) && Leaves(stage, name) && name !in h0[|h0| - 1].snapshots
    ensures WholeOrAbsent(h0, h1, name, tree) && name !in h1[|h1| - 1].snapshots
  {
    forall i: nat | |h0| <= i < |h1|
      ensures WholeAt(h1, i, name, tree)
    {
      assert SameAt(stage, h0, h1, i);
    }
    FramedEnds(stage, h0, h1);
  }

  lemma WholeAppend(h0: seq<Dir>, h1: seq<Dir>, h2: seq<Dir>, name: string, tree: Option<Tree>)
    requires WholeOrAbsent(h0, h1, name, tree) && WholeOrAbsent(h1, h2, name, tree) && h1 <= h2
    ensures WholeOrAbsent(h0, h2, name, tree)
  {
    forall i: nat | |h0| <= i < |h2|
      ensures WholeAt(h2, i, name, tree)
    {
      if i < |h1| {
        assert WholeAt(h1, i, name, tree);
      }
    }
  }

  /** A directory that has been whole or absent stays so while a stage works elsewhere. */
  lemma UntouchedStaysWhole(stage: Stage, h0: seq<Dir>, h1: seq<Dir>, h2: seq<Dir>, name: string, tree: Option<Tree>)
    requires h0 != [] && h0 <= h1 && Framed(stage, h1, h2) && Leaves(stage, name)
    requires WholeOrAbsent(h0, h1, name, tree) && name !in h0[|h0| - 1].snapshots
    ensures WholeOrAbsent(h0, h2, name, tree)
    ensures name !in h1[|h1| - 1].snapshots ==> name !in h2[|h2| - 1].snapshots
  {
    assert |h0| < |h1| ==> WholeAt(h1, |h1| - 1, name, tree);
    forall i: nat | |h0| <= i < |h2|
      ensures WholeAt(h2, i, name, tree)
    {
      if i < |h1| {
        assert WholeAt(h1, i, name, tree);
      } else {
        assert SameAt(stage, h1, h2, i);
      }
    }
    FramedEnds(stage, h1, h2);
  }
}
