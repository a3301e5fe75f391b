/** Stages 2 and 3 of pull_model: publishing snapshot directories and writing refs, as functions. */
module Snapshots {
  import opened Prelude
  import opened BlobNames
  import opened BlobFetch
  import opened ModelDir
  import Text

  datatype LinkEntry = BadLink | LinkEntry(path: string, blob: string)

  /** `tag` is the random part of the temporary name; `renamed` says whether the final os.replace succeeds. */
  datatype SnapshotEntry = BadSnapshot | SnapshotEntry(commit: string, links: seq<LinkEntry>, tag: string, renamed: bool)

  /** `written` says whether opening the ref file succeeds. */
  datatype RefEntry = BadRef | RefEntry(name: string, commit: string, written: bool)

  function LinkPath(l: LinkEntry): Option<Path> {
    if l.BadLink? || SafeJoin(l.path).None? || SafeJoin(l.path).value == [] then None else SafeJoin(l.path)
  }

  function LinkBlob(l: LinkEntry): Option<string> {
    if l.BadLink? then None else SafeLeafName(l.blob)
  }

  /**
   A new link fails when its path is taken, runs through a link, or is a directory of links: the path
   then resolves outside the temporary directory or cannot be unlinked.
   */
  predicate Conflicts(tree: Tree, path: Path) {
    exists q :: q in tree && (q <= path || path <= q)
  }

  function Target(path: Path, blob: string): Path {
    Ups(|path| + 1) + ["blobs", blob]
  }

  predicate Linkable(blobs: Files, tree: Tree, l: LinkEntry) {
    && LinkPath(l).Some? && LinkBlob(l).Some?
    && LinkBlob(l).value in blobs
    && !Conflicts(tree, LinkPath(l).value)
  }

  /** Lines 361-385: the links of one snapshot, or None at the first error. */
  function BuildTree(blobs: Files, links: seq<LinkEntry>): Option<Tree> {
    if links == [] then Some(map[])
    else
      var n := |links| - 1;
      var t := BuildTree(blobs, links[..n]);
      if t.Some? && Linkable(blobs, t.value, links[n])
      then Some(t.value[LinkPath(links[n]).value := Target(LinkPath(links[n]).value, LinkBlob(links[n]).value)])
      else None
  }

  function TempName(commit: string, tag: string): string {
    "." + commit + ".tmp-" + tag
  }

  datatype Published = Published(snapshots: map<string, Tree>, ok: bool)

  predicate CanPublish(blobs: Files, snapshots: map<string, Tree>, s: SnapshotEntry) {
    && s.SnapshotEntry?
    && SafeLeafName(s.commit).Some?
    && TempName(SafeLeafName(s.commit).value, s.tag) !in snapshots
    && BuildTree(blobs, s.links).Some?
  }

  /** Lines 350-395 for one snapshot: nothing on error, except that a failed rename has already removed the old directory. */
  function Publish(blobs: Files, snapshots: map<string, Tree>, s: SnapshotEntry): Published {
    if !CanPublish(blobs, snapshots, s) then Published(snapshots, false)
    else if !s.renamed then Published(snapshots - {SafeLeafName(s.commit).value}, false)
    else Published(snapshots[SafeLeafName(s.commit).value := BuildTree(blobs, s.links).value], true)
  }

  function PublishAll(blobs: Files, snapshots: map<string, Tree>, entries: seq<SnapshotEntry>): Published {
    if entries == [] then Published(snapshots, true)
    else
      var n := |entries| - 1;
      var p := PublishAll(blobs, snapshots, entries[..n]);
      if p.ok then Publish(blobs, p.snapshots, entries[n]) else p
  }

  datatype Referenced = Referenced(refs: map<Path, string>, ok: bool)

  predicate CanWrite(refs: map<Path, string>, r: RefEntry) {
    && r.RefEntry? && r.written
    && SafeJoin(r.name).Some? && SafeJoin(r.name).value != []
    && forall q :: q in refs && q != SafeJoin(r.name).value ==> !(q <= SafeJoin(r.name).value) && !(SafeJoin(r.name).value <= q)
  }

  function WriteRefs(refs: map<Path, string>, entries: seq<RefEntry>): Referenced {
    if entries == [] then Referenced(refs, true)
    else
      var n := |entries| - 1;
      var p := WriteRefs(refs, entries[..n]);
      if p.ok && CanWrite(p.refs, entries[n])
      then Referenced(p.refs[SafeJoin(entries[n].name).value := Text.Trim(Text.PySpace, entries[n].commit)], true)
      else p.(ok := false)
  }

  /** A built tree has one link per entry, no two in each other's way, each resolving to the blob its entry names. */
  lemma {:induction false} TreeIsComplete(blobs: Files, links: seq<LinkEntry>, name: string)
    requires BuildTree(blobs, links).Some?
    ensures var t := BuildTree(blobs, links).value;
            && |t| == |links|
            && (forall l :: l in links ==>
                  && LinkPath(l).Some? && LinkBlob(l).Some? && LinkPath(l).value in t && LinkBlob(l).value in blobs
                  && Follow(LinkParent([], name, LinkPath(l).value), t[LinkPath(l).value]) == BlobPath([], LinkBlob(l).value))
            && (forall p, q :: p in t && q in t && p <= q ==> p == q)
  {
    if links != [] {
      var n := |links| - 1;
      TreeIsComplete(blobs, links[..n], name);
      var l := links[n];
      var before, t := BuildTree(blobs, links[..n]).value, BuildTree(blobs, links).value;
      var path, blob := LinkPath(l).value, LinkBlob(l).value;
      assert path <= path && path !in before;
      assert t.Keys == before.Keys + {path};
      Relocation([], [], name, name, path, blob);
      forall k | k in links && k != l
        ensures LinkPath(k).Some? && LinkBlob(k).Some? && LinkPath(k).value in t && LinkBlob(k).value in blobs
        ensures Follow(LinkParent([], name, LinkPath(k).value), t[LinkPath(k).value]) == BlobPath([], LinkBlob(k).value)
      {
        assert k in links[..n];
        assert LinkPath(k).value in before;
      }
    }
  }

  /** When publishing succeeds, each commit's directory is the complete tree of its last entry, and no other directory changed. */
  lemma {:induction false} PublishedIsComplete(blobs: Files, snapshots: map<string, Tree>, entries: seq<SnapshotEntry>, i: nat)
    requires PublishAll(blobs, snapshots, entries).ok && i < |entries|
    requires forall j :: i < j < |entries| && entries[j].SnapshotEntry? && entries[i].SnapshotEntry? ==>
               SafeLeafName(entries[j].commit) != SafeLeafName(entries[i].commit)
    ensures var p := PublishAll(blobs, snapshots, entries);
            && entries[i].SnapshotEntry?
            && var c := SafeLeafName(entries[i].commit);
               c.Some? && c.value in p.snapshots && Some(p.snapshots[c.value]) == BuildTree(blobs, entries[i].links)
  {
    var n := |entries| - 1;
    if i < n {
      PublishedIsComplete(blobs, snapshots, entries[..n], i);
      assert entries[..n][i] == entries[i];
    }
  }

  lemma {:induction false} PublishTouchesNothingElse(blobs: Files, snapshots: map<string, Tree>, entries: seq<SnapshotEntry>, name: string)
    requires forall s :: s in entries && s.SnapshotEntry? ==> SafeLeafName(s.commit) != Some(name)
    ensures var p := PublishAll(blobs, snapshots, entries);
            (name in p.snapshots <==> name in snapshots) && (name in snapshots ==> p.snapshots[name] == snapshots[name])
  {
    if entries != [] {
      var n := |entries| - 1;
      PublishTouchesNothingElse(blobs, snapshots, entries[..n], name);
      assert entries[n] in entries;
    }
  }

  // ---------------------------------------------------------------------------------------------
  // When publishing succeeds, and what a failure leaves
  // ---------------------------------------------------------------------------------------------

  /** The link has a safe path below the snapshot and a safe name of a blob that is there. */
  predicate GoodLink(blobs: Files, l: LinkEntry) {
    && l.LinkEntry?
    && SafeJoin(l.path).Some? && SafeJoin(l.path).value != []
    && SafeLeafName(l.blob).Some? && SafeLeafName(l.blob).value in blobs
  }

  /** No path is another's, and none runs through another. */
  predicate Apart(a: Path, b: Path) {
    !(a <= b) && !(b <= a)
  }

  predicate LinksApart(k: LinkEntry, l: LinkEntry) {
    LinkPath(k).Some? && LinkPath(l).Some? ==> Apart(LinkPath(k).value, LinkPath(l).value)
  }

  predicate AllGood(blobs: Files, links: seq<LinkEntry>) {
    links == [] ||
    var init, l := links[..|links| - 1], links[|links| - 1];
    AllGood(blobs, init) && GoodLink(blobs, l) && forall k :: k in init ==> LinksApart(k, l)
  }

  lemma {:induction false} TreeKeys(blobs: Files, links: seq<LinkEntry>, path: Path)
    requires BuildTree(blobs, links).Some? && path in BuildTree(blobs, links).value
    ensures exists i :: 0 <= i < |links| && LinkPath(links[i]) == Some(path)
  {
    var n := |links| - 1;
    if LinkPath(links[n]) != Some(path) {
      TreeKeys(blobs, links[..n], path);
      var i :| 0 <= i < n && LinkPath(links[..n][i]) == Some(path);
      assert LinkPath(links[i]) == Some(path);
    }
  }

  lemma {:induction false} LinkIsThere(blobs: Files, links: seq<LinkEntry>, k: LinkEntry)
    requires BuildTree(blobs, links).Some? && k in links
    ensures LinkPath(k).Some? && LinkPath(k).value in BuildTree(blobs, links).value
  {
    var n := |links| - 1;
    if k != links[n] {
      assert k in links[..n];
      LinkIsThere(blobs, links[..n], k);
    }
  }

  lemma ConflictsIff(blobs: Files, links: seq<LinkEntry>, l: LinkEntry)
    requires BuildTree(blobs, links).Some? && LinkPath(l).Some?
    ensures Conflicts(BuildTree(blobs, links).value, LinkPath(l).value) <==> exists k :: k in links && !LinksApart(k, l)
  {
    var tree, path := BuildTree(blobs, links).value, LinkPath(l).value;
    if exists k :: k in links && !LinksApart(k, l) {
      var k :| k in links && !LinksApart(k, l);
      LinkIsThere(blobs, links, k);
    }
    if Conflicts(tree, path) {
      var q :| q in tree && (q <= path || path <= q);
      TreeKeys(blobs, links, q);
      var i :| 0 <= i < |links| && LinkPath(links[i]) == Some(q);
      assert !LinksApart(links[i], l);
    }
  }

  /** A tree is built exactly when every link is good and no two are in each other's way. */
  lemma {:induction false} TreeBuiltIff(blobs: Files, links: seq<LinkEntry>)
    ensures BuildTree(blobs, links).Some? <==> AllGood(blobs, links)
  {
    if links != [] {
      var init, l := links[..|links| - 1], links[|links| - 1];
      TreeBuiltIff(blobs, init);
      if BuildTree(blobs, init).Some? && LinkPath(l).Some? {
        ConflictsIff(blobs, init, l);
      }
    }
  }

  /**
   One snapshot: it is published exactly when its entry is a dict with a safe commit and good links, the
   temporary name is free and the rename succeeds; an error before the rename leaves every directory as it
   was, and a failed rename has cost the commit its old one.
   */
  lemma PublishedIff(blobs: Files, snapshots: map<string, Tree>, s: SnapshotEntry)
    ensures var p := PublishAll(blobs, snapshots, [s]);
            if s.SnapshotEntry? && SafeLeafName(s.commit).Some? && AllGood(blobs, s.links)
               && "." + SafeLeafName(s.commit).value + ".tmp-" + s.tag !in snapshots
            then
              var commit, tree := SafeLeafName(s.commit).value, BuildTree(blobs, s.links);
              tree.Some? && p == if s.renamed then Published(snapshots[commit := tree.value], true) else Published(snapshots - {commit}, false)
            else p == Published(snapshots, false)
  {
    assert [s][..0] == [];
    assert PublishAll(blobs, snapshots, []) == Published(snapshots, true);
    if s.SnapshotEntry? {
      TreeBuiltIff(blobs, s.links);
    }
  }

  /** The entries are published one after the other, each over what the ones before have left, up to the first error. */
  lemma {:induction false} PublishesAppend(blobs: Files, snapshots: map<string, Tree>, a: seq<SnapshotEntry>, b: seq<SnapshotEntry>)
    ensures var p := PublishAll(blobs, snapshots, a);
            PublishAll(blobs, snapshots, a + b) == if p.ok then PublishAll(blobs, p.snapshots, b) else p
  {
    if b == [] {
      assert a + b == a;
    } else {
      PublishesAppend(blobs, snapshots, a, b[..|b| - 1]);
      assert (a + b)[..|a + b| - 1] == a + b[..|b| - 1];
    }
  }

  // Refs

  /** The file an entry names below refs/. */
  function RefPath(r: RefEntry): Option<Path> {
    if r.BadRef? || SafeJoin(r.name).None? || SafeJoin(r.name).value == [] then None else SafeJoin(r.name)
  }

  /** The text is the commit without the whitespace around it, a trailing newline included. */
  ghost predicate HoldsCommit(text: string, commit: string) {
    Text.Trimmed(Text.PySpace, text)
    && exists a, c :: Text.Blank(Text.PySpace, a) && Text.Blank(Text.PySpace, c) && Padded(a, text, c) == commit
  }

  function Padded(a: string, text: string, c: string): string {
    a + text + c
  }

  lemma TrimHolds(commit: string)
    ensures HoldsCommit(Text.Trim(Text.PySpace, commit), commit)
  {
    Text.TrimIsTrimmed(Text.PySpace, commit);
    var a, c := Text.TrimSplit(Text.PySpace, commit);
    assert Padded(a, Text.Trim(Text.PySpace, commit), c) == commit;
  }

  /** When the stage succeeds, each ref holds the commit of the last entry that names it. */
  lemma {:induction false} RefsAreComplete(refs: map<Path, string>, entries: seq<RefEntry>, i: nat)
    requires WriteRefs(refs, entries).ok && i < |entries|
    requires forall j :: i < j < |entries| ==> RefPath(entries[j]) != RefPath(entries[i])
    ensures var p := WriteRefs(refs, entries);
            && entries[i].RefEntry? && RefPath(entries[i]).Some? && RefPath(entries[i]).value in p.refs
            && HoldsCommit(p.refs[RefPath(entries[i]).value], entries[i].commit)
  {
    var n := |entries| - 1;
    if i < n {
      assert entries[..n][i] == entries[i];
      RefsAreComplete(refs, entries[..n], i);
      assert RefPath(entries[n]) != RefPath(entries[i]);
    } else {
      TrimHolds(entries[n].commit);
    }
  }

  /** A ref that no entry names is as before, whether the stage succeeds or not. */
  lemma {:induction false} RefsTouchNothingElse(refs: map<Path, string>, entries: seq<RefEntry>, path: Path)
    requires forall r :: r in entries ==> RefPath(r) != Some(path)
    ensures var p := WriteRefs(refs, entries);
            (path in p.refs <==> path in refs) && (path in refs ==> p.refs[path] == refs[path])
  {
    if entries != [] {
      var n := |entries| - 1;
      RefsTouchNothingElse(refs, entries[..n], path);
      assert entries[n] in entries;
    }
  }

  /** After an error exactly the entries before the failing one have taken effect. */
  lemma {:induction false} RefsStopAtError(refs: map<Path, string>, entries: seq<RefEntry>) returns (k: nat)
    requires !WriteRefs(refs, entries).ok
    ensures k < |entries|
    ensures WriteRefs(refs, entries[..k]).ok && WriteRefs(refs, entries).refs == WriteRefs(refs, entries[..k]).refs
    ensures !WriteRefs(refs, entries[..k + 1]).ok
  {
    var n := |entries| - 1;
    assert entries[..n + 1] == entries;
    if WriteRefs(refs, entries[..n]).ok {
      k := n;
    } else {
      k := RefsStopAtError(refs, entries[..n]);
      assert entries[..n][..k] == entries[..k] && entries[..n][..k + 1] == entries[..k + 1];
    }
  }

  /** One entry is written exactly when it is a dict with a safe name, its file can be opened, and no other ref is in its way. */
  lemma RefWrittenIff(refs: map<Path, string>, r: RefEntry)
    ensures WriteRefs(refs, [r]).ok <==>
            r.RefEntry? && r.written && RefPath(r).Some? && forall q :: q in refs ==> q == RefPath(r).value || Apart(q, RefPath(r).value)
  {
    assert [r][..0] == [];
    assert WriteRefs(refs, []) == Referenced(refs, true);
  }

  /** The entries are written one after the other, each over what the ones before have left, up to the first error. */
  lemma {:induction false} WritesAppend(refs: map<Path, string>, a: seq<RefEntry>, b: seq<RefEntry>)
    ensures var p := WriteRefs(refs, a);
            WriteRefs(refs, a + b) == if p.ok then WriteRefs(p.refs, b) else p
  {
    if b == [] {
      assert a + b == a;
    } else {
      WritesAppend(refs, a, b[..|b| - 1]);
      assert (a + b)[..|a + b| - 1] == a + b[..|b| - 1];
    }
  }
}
