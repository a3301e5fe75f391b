/**
 The directory of one model: `blobs/`, `snapshots/` (relative symlinks into `blobs/`) and `refs/`,
 with the atomic file-system actions a pull may take.  What holds after every action holds after a
 crash at any point, because a crash leaves one of the intermediate states behind.
 */
module ModelDir {
  import opened BlobNames
  import opened BlobFetch

  /** A snapshot directory: where each link sits below it, and the relative target it holds. */
  type Tree = map<Path, Path>
  datatype Dir = Dir(blobs: Files, snapshots: map<string, Tree>, refs: map<Path, string>)

  function Ups(k: nat): Path {
    seq(k, i => "..")
  }

  /** The length of the longest common prefix (os.path.commonprefix on components). */
  function CommonLength(a: Path, b: Path): nat {
    if a != [] && b != [] && a[0] == b[0] then 1 + CommonLength(a[1..], b[1..]) else 0
  }

  /** os.path.relpath on absolute, normalised component lists. */
  function RelPath(target: Path, start: Path): Path {
    var n := CommonLength(target, start);
    if n <= |start| && n <= |target| then Ups(|start| - n) + target[n..] else []
  }

  /** How a relative link target is followed from the directory that holds the link. */
  function Follow(dir: Path, rel: Path): Path
    decreases |rel|
  {
    if rel == [] then dir
    else if rel[0] == ".." then Follow(if dir == [] then [] else dir[..|dir| - 1], rel[1..])
    else Follow(dir + [rel[0]], rel[1..])
  }

  function BlobPath(model: Path, blob: string): Path {
    model + ["blobs", blob]
  }

  /** The directory that holds the link `link` of the snapshot directory `name`. */
  function LinkParent(model: Path, name: string, link: Path): Path
    requires link != []
  {
    model + ["snapshots", name] + link[..|link| - 1]
  }

  /** Line 381: what os.symlink is given. */
  function LinkTarget(model: Path, name: string, link: Path, blob: string): Path
    requires link != []
  {
    RelPath(BlobPath(model, blob), LinkParent(model, name, link))
  }

  lemma {:induction false} CommonLengthSplit(prefix: Path, a: Path, b: Path)
    requires a == [] || b == [] || a[0] != b[0]
    ensures CommonLength(prefix + a, prefix + b) == |prefix|
  {
    if prefix == [] {
      assert prefix + a == a && prefix + b == b;
    } else {
      CommonLengthSplit(prefix[1..], a, b);
      assert (prefix + a)[1..] == prefix[1..] + a;
      assert (prefix + b)[1..] == prefix[1..] + b;
    }
  }

  lemma {:induction false} FollowUps(dir: Path, up: Path, rel: Path)
    ensures Follow(dir + up, Ups(|up|) + rel) == Follow(dir, rel)
    decreases |up|
  {
    if up == [] {
      assert dir + up == dir && Ups(0) + rel == rel;
    } else {
      var shorter := up[..|up| - 1];
      assert Ups(|up|)[0] == "..";
      assert (Ups(|up|) + rel)[1..] == Ups(|shorter|) + rel;
      assert (dir + up)[..|dir + up| - 1] == dir + shorter;
      FollowUps(dir, shorter, rel);
    }
  }

  lemma {:induction false} FollowPlain(dir: Path, rel: Path)
    requires ".." !in rel
    ensures Follow(dir, rel) == dir + rel
    decreases |rel|
  {
    if rel == [] {
      assert dir + rel == dir;
    } else {
      FollowPlain(dir + [rel[0]], rel[1..]);
      assert dir + [rel[0]] + rel[1..] == dir + rel;
    }
  }

  /** A relative path leads from its start to its target, whatever the two have in common. */
  lemma {:induction false} RelPathLeadsToTarget(prefix: Path, target: Path, start: Path)
    requires ".." !in target
    requires target == [] || start == [] || target[0] != start[0]
    ensures RelPath(prefix + target, prefix + start) == Ups(|start|) + target
    ensures Follow(prefix + start, RelPath(prefix + target, prefix + start)) == prefix + target
  {
    CommonLengthSplit(prefix, target, start);
    assert (prefix + target)[|prefix|..] == target;
    FollowUps(prefix, start, target);
    FollowPlain(prefix, target);
  }

  /**
   Relocation.  The target computed while the link sits in the temporary directory resolves to the
   same blob after that directory has been renamed, for every link depth; it does not depend on where
   the model directory is, because the common prefix with `blobs/` stops there.
   */
  lemma Relocation(model: Path, moved: Path, temporary: string, commit: string, link: Path, blob: string)
    requires link != [] && blob != ".."
    ensures CommonLength(BlobPath(model, blob), LinkParent(model, temporary, link)) == |model|
    ensures LinkTarget(model, temporary, link, blob) == Ups(|link| + 1) + ["blobs", blob]
    ensures Follow(LinkParent(model, temporary, link), LinkTarget(model, temporary, link, blob)) == BlobPath(model, blob)
    ensures Follow(LinkParent(moved, commit, link), LinkTarget(model, temporary, link, blob)) == BlobPath(moved, blob)
  {
    var below := ["snapshots", temporary] + link[..|link| - 1];
    var target := ["blobs", blob];
    assert LinkParent(model, temporary, link) == model + below;
    RelPathLeadsToTarget(model, target, below);
    CommonLengthSplit(model, target, below);
    var moved_below := ["snapshots", commit] + link[..|link| - 1];
    assert LinkParent(moved, commit, link) == moved + moved_below;
    FollowUps(moved, moved_below, target);
    FollowPlain(moved, target);
    assert |moved_below| == |link| + 1;
  }

  // ---------------------------------------------------------------------------------------------
  // Atomic actions
  // ---------------------------------------------------------------------------------------------

  /** Actions on `blobs/`: write a partial file, delete it, or publish it when its digest is right. */
  predicate BlobMove(hash: Hash, a: Files, b: Files, n: string) {
    var part := PartName(n);
    || (part in b && b == a[part := b[part]])
    || b == a - {part}
    || (part in a && DigestOk(hash, n, a[part]) && b == (a - {part})[n := a[part]])
  }

  datatype Action =
    | Blob(name: string)
    | MakeTemp(dir: string)
    | AddLink(dir: string, link: Path, blob: string)
    | DropLink(dir: string, link: Path)
    | RemoveDir(dir: string)
    | Rename(from: string, to: string)
    | WriteRef(ref: Path, commit: string)

  /** The model directory is its own root here: Relocation shows that its location does not matter. */
  predicate Step(hash: Hash, a: Dir, act: Action, b: Dir) {
    match act
    case Blob(n) => b == a.(blobs := b.blobs) && BlobMove(hash, a.blobs, b.blobs, n)
    case MakeTemp(d) => d !in a.snapshots && b == a.(snapshots := a.snapshots[d := map[]])
    case AddLink(d, link, blob) =>
      && d in a.snapshots && link != [] && blob in a.blobs && blob != ".." && !IsPart(blob)
      && b == a.(snapshots := a.snapshots[d := a.snapshots[d][link := LinkTarget([], d, link, blob)]])
    case DropLink(d, link) => d in a.snapshots && b == a.(snapshots := a.snapshots[d := a.snapshots[d] - {link}])
    case RemoveDir(d) => b == a.(snapshots := a.snapshots - {d})
    case Rename(from, to) =>
      && from in a.snapshots && to !in a.snapshots
      && b == a.(snapshots := (a.snapshots - {from})[to := a.snapshots[from]])
    case WriteRef(ref, commit) => b == a.(refs := a.refs[ref := commit])
  }

  ghost predicate Steps(hash: Hash, a: Dir, b: Dir) {
    exists act :: Step(hash, a, act, b)
  }

  ghost predicate StepAt(hash: Hash, h: seq<Dir>, i: nat)
    requires 0 < i < |h|
  {
    Steps(hash, h[i - 1], h[i])
  }

  /** A history in which every state follows from the one before by one action. */
  ghost predicate Chain(hash: Hash, h: seq<Dir>) {
    h != [] && forall i :: 0 < i < |h| ==> StepAt(hash, h, i)
  }

  /** The blob a link of the directory resolves to; None when it dangles. */
  predicate Resolves(dir: Dir, name: string, link: Path, blob: string)
    requires name in dir.snapshots && link in dir.snapshots[name]
  {
    && link != []
    && Follow(LinkParent([], name, link), dir.snapshots[name][link]) == BlobPath([], blob)
    && blob in dir.blobs
    && !IsPart(blob)
  }

  /** No link anywhere below `snapshots/` dangles. */
  ghost predicate NoDangling(dir: Dir) {
    forall name, link :: name in dir.snapshots && link in dir.snapshots[name] ==> exists blob :: Resolves(dir, name, link, blob)
  }

  /** Every link has the closed form of Relocation; this is what makes NoDangling survive renames. */
  predicate Anchored(dir: Dir) {
    forall name, link :: name in dir.snapshots && link in dir.snapshots[name] ==> AnchoredLink(dir.blobs, link, dir.snapshots[name][link])
  }

  predicate AnchoredLink(blobs: Files, link: Path, target: Path) {
    && link != [] && target != []
    && var blob := target[|target| - 1];
       target == Ups(|link| + 1) + ["blobs", blob] && blob in blobs && blob != ".." && !IsPart(blob)
  }

  lemma AnchoredResolves(dir: Dir)
    requires Anchored(dir)
    ensures NoDangling(dir)
  {
    forall name, link | name in dir.snapshots && link in dir.snapshots[name]
      ensures exists blob :: Resolves(dir, name, link, blob)
    {
      var target := dir.snapshots[name][link];
      var blob := target[|target| - 1];
      Relocation([], [], name, name, link, blob);
      assert Resolves(dir, name, link, blob);
    }
  }

  /** Blobs are replaced but never removed: only partial files disappear. */
  lemma BlobsAreNeverRemoved(hash: Hash, a: Dir, b: Dir, blob: string)
    requires Steps(hash, a, b) && blob in a.blobs && !IsPart(blob)
    ensures blob in b.blobs
  {
    var act :| Step(hash, a, act, b);
    if act.Blob? {
      PartIsNeverDigest(act.name);
      MoveKeepsBlobs(hash, a.blobs, b.blobs, act.name, blob);
    } else {
      assert b.blobs == a.blobs;
    }
  }

  lemma MoveKeepsBlobs(hash: Hash, a: Files, b: Files, n: string, blob: string)
    requires BlobMove(hash, a, b, n) && blob in a && blob != PartName(n)
    ensures blob in b
  {
  }

  /** A link that may name anything is safe under every action exactly when it does not name a partial file. */
  lemma OnlyPartsCanVanish(hash: Hash, a: Dir, blob: string)
    requires blob in a.blobs
    ensures (forall b :: Steps(hash, a, b) ==> blob in b.blobs) <==> !IsPart(blob)
  {
    if IsPart(blob) {
      var n := blob[..|blob| - 5];
      assert PartName(n) == blob;
      var b := a.(blobs := a.blobs - {blob});
      assert Step(hash, a, Action.Blob(n), b);
      assert Steps(hash, a, b) && blob !in b.blobs;
    } else {
      forall b | Steps(hash, a, b)
        ensures blob in b.blobs
      {
        BlobsAreNeverRemoved(hash, a, b, blob);
      }
    }
  }

  lemma StepKeepsAnchored(hash: Hash, a: Dir, b: Dir)
    requires Anchored(a) && Steps(hash, a, b)
    ensures Anchored(b)
  {
    var act :| Step(hash, a, act, b);
    forall name, link | name in b.snapshots && link in b.snapshots[name]
      ensures AnchoredLink(b.blobs, link, b.snapshots[name][link])
    {
      var target := b.snapshots[name][link];
      if act.AddLink? && name == act.dir && link == act.link {
        Relocation([], [], name, name, link, act.blob);
      } else {
        var before := if act.Rename? && name == act.to then act.from else name;
        assert link in a.snapshots[before] && a.snapshots[before][link] == target;
        assert AnchoredLink(a.blobs, link, target);
        BlobsAreNeverRemoved(hash, a, b, target[|target| - 1]);
      }
    }
  }

  /** No link ever dangles, at any point of any sequence of pulls, failed, crashed or successful. */
  lemma {:induction false} NothingEverDangles(hash: Hash, h: seq<Dir>, i: nat)
    requires Chain(hash, h) && Anchored(h[0]) && i < |h|
    ensures Anchored(h[i]) && NoDangling(h[i])
  {
    if i > 0 {
      NothingEverDangles(hash, h, i - 1);
      assert StepAt(hash, h, i);
      StepKeepsAnchored(hash, h[i - 1], h[i]);
    }
    AnchoredResolves(h[i]);
  }

  /** One action replaces a digest-named file only by bytes that hash to its digest, and never removes it. */
  lemma IntegrityStep(hash: Hash, a: Dir, b: Dir, name: string)
    requires Steps(hash, a, b) && ExpectedSha256(name).Some?
    ensures name in a.blobs ==> name in b.blobs
    ensures name in b.blobs ==> DigestOk(hash, name, b.blobs[name]) || (name in a.blobs && b.blobs[name] == a.blobs[name])
  {
    var act :| Step(hash, a, act, b);
    if act.Blob? {
      PartIsNeverDigest(act.name);
      MoveIntegrity(hash, a.blobs, b.blobs, act.name, name);
    } else {
      assert b.blobs == a.blobs;
    }
  }

  lemma MoveIntegrity(hash: Hash, a: Files, b: Files, n: string, name: string)
    requires BlobMove(hash, a, b, n) && name != PartName(n)
    ensures name in a ==> name in b
    ensures name in b ==> DigestOk(hash, name, b[name]) || (name in a && b[name] == a[name])
  {
  }

  /**
   Blob integrity at every intermediate state: over any sequence of pulls, a digest-named file is at
   all times either what it was before or bytes that hash to its digest, and once it is there it stays.
   */
  lemma {:induction false} IntegrityAlways(hash: Hash, h: seq<Dir>, i: nat, j: nat, name: string)
    requires Chain(hash, h) && i <= j < |h| && ExpectedSha256(name).Some?
    ensures name in h[i].blobs ==> name in h[j].blobs
    ensures name in h[j].blobs ==>
              || DigestOk(hash, name, h[j].blobs[name])
              || (name in h[i].blobs && h[j].blobs[name] == h[i].blobs[name])
  {
    if i < j {
      IntegrityAlways(hash, h, i, j - 1, name);
      assert StepAt(hash, h, j);
      IntegrityStep(hash, h[j - 1], h[j], name);
    }
  }

  /** A crash leaves some state of the history behind; the next pull goes on from there. */
  lemma CrashThenPull(hash: Hash, h: seq<Dir>, i: nat, next: seq<Dir>)
    requires Chain(hash, h) && Chain(hash, next) && i < |h| && next[0] == h[i]
    ensures Chain(hash, h[..i + 1] + next[1..])
  {
    var all := h[..i + 1] + next[1..];
    forall k: nat | 0 < k < |all|
      ensures StepAt(hash, all, k)
    {
      if k <= i {
        assert StepAt(hash, h, k);
      } else {
        assert StepAt(hash, next, k - i);
      }
    }
  }
}
