/** pull_model, step by step, with the history of everything the disk has looked like. */
module ModelPuller {
  import opened Prelude
  import opened BlobNames
  import opened BlobFetch
  import opened ModelDir
  import opened History
  import opened Snapshots
  import Text

  /** One more link turns the tree of the first k links into that of the first k + 1, or into an error. */
  lemma NextTree(blobs: Files, links: seq<LinkEntry>, k: nat)
    requires k < |links| && BuildTree(blobs, links[..k]).Some?
    ensures var tree, l := BuildTree(blobs, links[..k]).value, links[k];
            BuildTree(blobs, links[..k + 1]) ==
            if Linkable(blobs, tree, l) then Some(tree[LinkPath(l).value := Target(LinkPath(l).value, LinkBlob(l).value)]) else None
  {
    assert links[..k + 1][..k] == links[..k];
  }

  /** A response that came in full is settled from the partial file it left. */
  lemma SettledTransfer(hash: Hash, p: Pull, files: Files, b: Blob, r: Response)
    requires !TurnedDown(r, ResumeStart(files, b), b.size) && !r.cut
    ensures var part, data := PartName(b.name), Received(files, b, r);
            var received := files[part := data];
            BlobFetch.Transfer(hash, p, files, b, r) ==
            if (b.size > 0 && |data| != b.size) || !DigestOk(hash, b.name, data) then Fail(p.(files := received), received - {part})
            else Account(p.(files := received), (received - {part})[b.name := data], |Flat(r.chunks)|,
                         if Resumes(r, ResumeStart(files, b)) then ResumeStart(files, b) else 0, |data|)
  {
    assert files[PartName(b.name) := Received(files, b, r)] - {PartName(b.name)} == files - {PartName(b.name)};
  }

  lemma SetTwice<V>(m: map<string, V>, k: string, v: V, w: V)
    ensures m[k := v][k := w] == m[k := w]
  {
  }

  class Puller {
    const hash: Hash
    const root: Path
    const total: int
    const round: Rounding
    var dir: Dir
    var downloaded: nat
    var skipped: nat
    var completed: nat
    var reports: seq<nat>
    var percents: seq<int>
    ghost var history: seq<Dir>

    ghost predicate Valid()
      reads this
    {
      && Chain(hash, history)
      && history[|history| - 1] == dir
      && Shown(round, total, reports, percents)
    }

    function Blobs(ok: bool): Pull
      reads this
    {
      Pull(dir.blobs, ok, downloaded, skipped, completed, reports)
    }

    /** The model directory as earlier pulls, failed or not, have left it; the counters of a pull start at 0. */
    constructor (hash: Hash, root: Path, total: int, round: Rounding, dir: Dir)
      ensures Valid() && history == [dir] && this.dir == dir
      ensures this.hash == hash && this.root == root && this.total == total && this.round == round
      ensures Blobs(true) == Start(dir.blobs)
    {
      this.hash, this.root, this.total, this.round, this.dir := hash, root, total, round, dir;
      downloaded, skipped, completed, reports, percents := 0, 0, 0, [], [];
      history := [dir];
    }

    /** One atomic file-system action. */
    method Act(ghost act: Action, ghost stage: Stage, next: Dir)
      requires Valid() && Step(hash, dir, act, next) && SameOutside(stage, dir, next)
      modifies this`dir, this`history
      ensures Valid() && dir == next && history == old(history) + [next] && Framed(stage, old(history), history)
    {
      FramedStep(stage, history, history, next);
      dir := next;
      history := history + [next];
      assert Steps(hash, old(dir), next);
      forall i: nat | 0 < i < |history|
        ensures StepAt(hash, history, i)
      {
        if i < |history| - 1 {
          assert StepAt(hash, old(history), i);
        }
      }
    }

    method SetPart(name: string, data: Bytes)
      requires Valid()
      modifies this`dir, this`history
      ensures Valid() && Framed(BlobStage, old(history), history)
      ensures dir == old(dir).(blobs := old(dir.blobs)[PartName(name) := data])
    {
      Act(Action.Blob(name), BlobStage, dir.(blobs := dir.blobs[PartName(name) := data]));
    }

    method UnlinkPart(name: string)
      requires Valid()
      modifies this`dir, this`history
      ensures Valid() && Framed(BlobStage, old(history), history)
      ensures dir == old(dir).(blobs := old(dir.blobs) - {PartName(name)})
    {
      Act(Action.Blob(name), BlobStage, dir.(blobs := dir.blobs - {PartName(name)}));
    }

    /** os.replace(tmp_path, target) */
    method PublishBlob(name: string)
      requires Valid() && PartName(name) in dir.blobs && DigestOk(hash, name, dir.blobs[PartName(name)])
      modifies this`dir, this`history
      ensures Valid() && Framed(BlobStage, old(history), history)
      ensures dir == old(dir).(blobs := (old(dir.blobs) - {PartName(name)})[name := old(dir.blobs)[PartName(name)]])
    {
      Act(Action.Blob(name), BlobStage,
          dir.(blobs := (dir.blobs - {PartName(name)})[name := dir.blobs[PartName(name)]]));
    }

    method Count(down: nat, skip: nat, size: nat)
      requires Valid()
      modifies this`downloaded, this`skipped, this`completed, this`reports, this`percents
      ensures Valid()
      ensures Blobs(true) == Account(old(Blobs(true)), dir.blobs, down, skip, size)
    {
      skipped := skipped + skip;
      downloaded := downloaded + down;
      completed := completed + size;
      ShownSnoc(round, total, reports, percents, completed);
      reports := reports + [completed];
      percents := percents + [Percent(round, completed, total)];
    }

    /** One chunk is appended to a partial file that holds `data`. */
    method AppendChunk(name: string, chunk: Bytes, ghost files: Files, ghost data: Bytes)
      requires Valid() && dir.blobs == files[PartName(name) := data]
      modifies this`dir, this`history
      ensures Valid() && Framed(BlobStage, old(history), history)
      ensures dir == old(dir).(blobs := files[PartName(name) := data + chunk])
    {
      SetPart(name, dir.blobs[PartName(name)] + chunk);
      assert dir.blobs == files[PartName(name) := data + chunk];
    }

    /** Lines 297-317: open the partial file and append the chunks as they arrive. */
    method Receive(b: Blob, r: Response, resumed: bool) returns (written: nat)
      requires Valid() && r.Reply?
      requires resumed <==> Resumes(r, ResumeStart(dir.blobs, b))
      modifies this`dir, this`history
      ensures Valid() && Framed(BlobStage, old(history), history)
      ensures dir == old(dir).(blobs := old(dir.blobs)[PartName(b.name) := Received(old(dir.blobs), b, r)])
      ensures written == |Flat(r.chunks)|
    {
      var part := PartName(b.name);
      ghost var files := dir.blobs;
      ghost var base := if resumed then files[part] else [];
      if !resumed {
        SetPart(b.name, []);
      } else {
        assert files[part := files[part]] == files;
      }
      written := AppendAll(b.name, r.chunks, files, base, old(history));
    }

    method AppendAll(name: string, chunks: seq<Bytes>, ghost files: Files, ghost base: Bytes, ghost h0: seq<Dir>) returns (written: nat)
      requires Valid() && dir.blobs == files[PartName(name) := base] && Framed(BlobStage, h0, history)
      modifies this`dir, this`history
      ensures Valid() && Framed(BlobStage, h0, history)
      ensures dir == old(dir).(blobs := files[PartName(name) := base + Flat(chunks)])
      ensures written == |Flat(chunks)|
    {
      var k := 0;
      written := 0;
      assert base + Flat([]) == base;
      while k < |chunks|
        invariant 0 <= k <= |chunks|
        invariant Valid() && Framed(BlobStage, h0, history)
        invariant dir == old(dir).(blobs := files[PartName(name) := base + Flat(chunks[..k])])
        invariant written == |Flat(chunks[..k])|
      {
        ghost var h := history;
        assert chunks[..k + 1][..k] == chunks[..k];
        assert base + Flat(chunks[..k]) + chunks[k] == base + Flat(chunks[..k + 1]);
        AppendChunk(name, chunks[k], files, base + Flat(chunks[..k]));
        FramedTrans(BlobStage, h0, h, history);
        written := written + |chunks[k]|;
        k := k + 1;
      }
      assert chunks[..k] == chunks;
    }

    /** Lines 324-347: validate size and digest, then publish and account, or discard the partial file. */
    method Settle(b: Blob, written: nat, resumedFrom: nat) returns (ok: bool)
      requires Valid() && PartName(b.name) in dir.blobs
      modifies this
      ensures Valid() && Framed(BlobStage, old(history), history)
      ensures var part, files := PartName(b.name), old(dir.blobs);
              var data := files[part];
              Blobs(ok) == if (b.size > 0 && |data| != b.size) || !DigestOk(hash, b.name, data)
                           then Fail(old(Blobs(true)), files - {part})
                           else Account(old(Blobs(true)), (files - {part})[b.name := data], written, resumedFrom, |data|)
    {
      var actual := |dir.blobs[PartName(b.name)]|;
      if b.size > 0 && actual != b.size {
        UnlinkPart(b.name);
        return false;
      }
      if !DigestOk(hash, b.name, dir.blobs[PartName(b.name)]) {
        UnlinkPart(b.name);
        return false;
      }
      PublishBlob(b.name);
      Count(written, resumedFrom, if b.size > 0 then b.size else actual);
      return true;
    }

    /** Lines 286-347: one request, the chunks it brings, validation and publication. */
    method Transfer(b: Blob, r: Response) returns (ok: bool)
      requires Valid()
      modifies this
      ensures Valid() && Framed(BlobStage, old(history), history)
      ensures Blobs(ok) == BlobFetch.Transfer(hash, old(Blobs(true)), old(dir.blobs), b, r)
    {
      ghost var h0, files, p := history, dir.blobs, Blobs(true);
      var start := ResumeStart(dir.blobs, b);
      if TurnedDown(r, start, b.size) {
        return false;
      }
      var resumed := start > 0 && r.status == 206;
      var written := Receive(b, r, resumed);
      ghost var h1, data := history, Received(files, b, r);
      assert Blobs(true) == p.(files := files[PartName(b.name) := data]);
      if r.cut {
        return false;
      }
      SettledTransfer(hash, p, files, b, r);
      ok := Settle(b, written, if resumed then start else 0);
      FramedTrans(BlobStage, h0, h1, history);
    }

    /** Lines 255-280: discard a partial file that cannot be completed, publish one that is complete. */
    method ReusePart(b: Blob) returns (published: bool)
      requires Valid()
      modifies this`dir, this`history
      ensures Valid() && Framed(BlobStage, old(history), history)
      ensures published <==> CompletePart(hash, old(dir.blobs), b)
      ensures dir.blobs == (if published then (old(dir.blobs) - {PartName(b.name)})[b.name := old(dir.blobs)[PartName(b.name)]]
                            else AfterDiscard(hash, old(dir.blobs), b))
    {
      var part := PartName(b.name);
      if part in dir.blobs {
        var start := |dir.blobs[part]|;
        if b.size > 0 && start > b.size {
          UnlinkPart(b.name);
        } else if start > 0 && b.size > 0 && start == b.size {
          if !DigestOk(hash, b.name, dir.blobs[part]) {
            UnlinkPart(b.name);
          } else {
            PublishBlob(b.name);
            return true;
          }
        }
      }
      return false;
    }

    /** Lines 205-347: one entry of the manifest. */
    method FetchEntry(e: Entry, server: Server) returns (ok: bool)
      requires Valid()
      modifies this
      ensures Valid() && Framed(BlobStage, old(history), history)
      ensures Blobs(ok) == BlobFetch.FetchEntry(hash, old(Blobs(true)), e, server)
    {
      if BlobOf(e).None? {
        return false;
      }
      var b := BlobOf(e).value;
      if b.name in dir.blobs && (b.size == 0 || |dir.blobs[b.name]| == b.size) {
        if DigestOk(hash, b.name, dir.blobs[b.name]) {
          Count(0, |dir.blobs[b.name]|, if b.size > 0 then b.size else |dir.blobs[b.name]|);
          return true;
        }
      }
      ok := Fetch(b, server);
    }

    /** Lines 250-347: the blob is not in place. */
    method Fetch(b: Blob, server: Server) returns (ok: bool)
      requires Valid()
      modifies this
      ensures Valid() && Framed(BlobStage, old(history), history)
      ensures var files, part := old(dir.blobs), PartName(b.name);
              Blobs(ok) == if CompletePart(hash, files, b)
                           then Account(old(Blobs(true)), (files - {part})[b.name := files[part]], 0, b.size, b.size)
                           else BlobFetch.Transfer(hash, old(Blobs(true)), AfterDiscard(hash, files, b), b,
                                                   server(b.name, ResumeStart(AfterDiscard(hash, files, b), b)))
    {
      ghost var h0, p := history, Blobs(true);
      var published := ReusePart(b);
      if published {
        Count(0, b.size, b.size);
        return true;
      }
      ghost var h1 := history;
      assert BlobFetch.Transfer(hash, Blobs(true), dir.blobs, b, server(b.name, ResumeStart(dir.blobs, b)))
          == BlobFetch.Transfer(hash, p, dir.blobs, b, server(b.name, ResumeStart(dir.blobs, b)));
      ok := Transfer(b, server(b.name, ResumeStart(dir.blobs, b)));
      FramedTrans(BlobStage, h0, h1, history);
    }

    /** Stage 1. */
    method FetchBlobs(entries: seq<Entry>, server: Server) returns (ok: bool)
      requires Valid() && Blobs(true) == Start(dir.blobs)
      modifies this
      ensures Valid() && Framed(BlobStage, old(history), history)
      ensures Blobs(ok) == FetchAll(hash, old(dir.blobs), entries, server)
    {
      var k := 0;
      ok := true;
      while k < |entries|
        invariant 0 <= k <= |entries|
        invariant ok && Valid() && Framed(BlobStage, old(history), history)
        invariant Blobs(true) == FetchAll(hash, old(dir.blobs), entries[..k], server)
      {
        ghost var h := history;
        ok := FetchEntry(entries[k], server);
        FramedTrans(BlobStage, old(history), h, history);
        assert entries[..k + 1][..k] == entries[..k];
        if !ok {
          FailureIsFinal(hash, old(dir.blobs), entries, server, k + 1);
          return;
        }
        k := k + 1;
      }
      assert entries[..k] == entries;
    }

    method DropLink(name: string)
      requires Valid() && name in dir.snapshots && dir.snapshots[name] != map[]
      modifies this`dir, this`history
      ensures Valid() && Framed(SnapshotStage({name}), old(history), history)
      ensures name in dir.snapshots && dir == old(dir).(snapshots := old(dir.snapshots)[name := dir.snapshots[name]])
      ensures |dir.snapshots[name]| < |old(dir.snapshots)[name]|
    {
      var tree := dir.snapshots[name];
      var link :| link in tree;
      assert (tree - {link}).Keys == tree.Keys - {link};
      Act(Action.DropLink(name, link), SnapshotStage({name}), dir.(snapshots := dir.snapshots[name := tree - {link}]));
    }

    /** shutil.rmtree: the links go one by one, in any order, then the directory. */
    method RemoveTree(name: string)
      requires Valid() && name in dir.snapshots
      modifies this`dir, this`history
      ensures Valid() && Framed(SnapshotStage({name}), old(history), history)
      ensures dir == old(dir).(snapshots := old(dir.snapshots) - {name})
    {
      ghost var before := dir;
      ghost var h0 := history;
      while dir.snapshots[name] != map[]
        invariant Valid() && Framed(SnapshotStage({name}), h0, history)
        invariant name in dir.snapshots && dir == before.(snapshots := dir.snapshots)
        invariant dir.snapshots - {name} == before.snapshots - {name}
        decreases |dir.snapshots[name]|
      {
        ghost var h := history;
        DropLink(name);
        FramedTrans(SnapshotStage({name}), h0, h, history);
      }
      ghost var h := history;
      Act(Action.RemoveDir(name), SnapshotStage({name}), dir.(snapshots := dir.snapshots - {name}));
      FramedTrans(SnapshotStage({name}), h0, h, history);
    }

    /** Lines 376-385: one symlink, computed from where it stands now. */
    method AddLink(temporary: string, l: LinkEntry)
      requires Valid() && temporary in dir.snapshots
      requires Linkable(dir.blobs, dir.snapshots[temporary], l) && !IsPart(LinkBlob(l).value)
      modifies this`dir, this`history
      ensures Valid() && Framed(SnapshotStage({temporary}), old(history), history)
      ensures var path, blob := LinkPath(l).value, LinkBlob(l).value;
              dir == old(dir).(snapshots := old(dir.snapshots)[temporary := old(dir.snapshots)[temporary][path := Target(path, blob)]])
    {
      var path, blob := LinkPath(l).value, LinkBlob(l).value;
      LeafIsPlain(l.blob);
      Relocation(root, [], temporary, temporary, path, blob);
      Relocation([], [], temporary, temporary, path, blob);
      var target := LinkTarget(root, temporary, path, blob);
      Act(Action.AddLink(temporary, path, blob), SnapshotStage({temporary}),
          dir.(snapshots := dir.snapshots[temporary := dir.snapshots[temporary][path := target]]));
    }

    /** Lines 361-385: fill the temporary directory. */
    method AddLinks(temporary: string, links: seq<LinkEntry>) returns (ok: bool)
      requires Valid() && temporary in dir.snapshots && dir.snapshots[temporary] == map[]
      requires NoPartLinks(links)
      modifies this`dir, this`history
      ensures Valid() && Framed(SnapshotStage({temporary}), old(history), history)
      ensures temporary in dir.snapshots && dir == old(dir).(snapshots := old(dir.snapshots)[temporary := dir.snapshots[temporary]])
      ensures ok <==> BuildTree(old(dir.blobs), links).Some?
      ensures ok ==> dir.snapshots[temporary] == BuildTree(old(dir.blobs), links).value
    {
      ghost var before := dir.snapshots;
      var k := 0;
      assert before == before[temporary := before[temporary]];
      while k < |links|
        invariant 0 <= k <= |links|
        invariant Valid() && Framed(SnapshotStage({temporary}), old(history), history)
        invariant temporary in dir.snapshots
        invariant dir == old(dir).(snapshots := before[temporary := dir.snapshots[temporary]])
        invariant BuildTree(old(dir.blobs), links[..k]) == Some(dir.snapshots[temporary])
      {
        ghost var h, tree := history, dir.snapshots[temporary];
        assert links[k] in links;
        NextTree(dir.blobs, links, k);
        if !Linkable(dir.blobs, dir.snapshots[temporary], links[k]) {
          NoTreeAfterError(dir.blobs, links, k + 1);
          return false;
        }
        AddLink(temporary, links[k]);
        FramedTrans(SnapshotStage({temporary}), old(history), h, history);
        SetTwice(before, temporary, tree, dir.snapshots[temporary]);
        k := k + 1;
      }
      assert links[..k] == links;
      return true;
    }

    /** Lines 387-395: put the filled temporary directory in the place of the commit's. */
    method Install(commit: string, temporary: string, renamed: bool)
      requires Valid() && temporary in dir.snapshots && commit != temporary
      modifies this`dir, this`history
      ensures Valid() && Framed(SnapshotStage({commit, temporary}), old(history), history)
      ensures var tree := old(dir.snapshots)[temporary];
              && dir == old(dir).(snapshots := if renamed then (old(dir.snapshots) - {temporary})[commit := tree]
                                               else old(dir.snapshots) - {temporary} - {commit})
              && (commit !in old(dir.snapshots) ==> WholeOrAbsent(old(history), history, commit, Some(tree)))
    {
      ghost var both := {commit, temporary};
      ghost var before, tree := dir.snapshots, dir.snapshots[temporary];
      if commit in dir.snapshots {
        RemoveTree(commit);
        FramedWiden({commit}, both, old(history), history);
      }
      ghost var h := history;
      if renamed {
        Act(Action.Rename(temporary, commit), SnapshotStage(both),
            dir.(snapshots := (dir.snapshots - {temporary})[commit := dir.snapshots[temporary]]));
        assert dir.snapshots == (before - {temporary})[commit := tree];
      } else {
        RemoveTree(temporary);
        FramedWiden({temporary}, both, h, history);
        if commit !in before {
          AbsentStaysAbsent(SnapshotStage({temporary}), h, history, commit, Some(tree));
        }
        assert dir.snapshots == before - {temporary} - {commit};
      }
      FramedTrans(SnapshotStage(both), old(history), h, history);
    }

    /** Lines 358-385, undone on error: the filled temporary directory, or nothing. */
    method Stage(commit: string, temporary: string, links: seq<LinkEntry>) returns (ok: bool)
      requires Valid() && temporary !in dir.snapshots && commit != temporary && NoPartLinks(links)
      modifies this`dir, this`history
      ensures Valid() && Framed(SnapshotStage({temporary}), old(history), history)
      ensures var tree := BuildTree(old(dir.blobs), links);
              && (ok <==> tree.Some?)
              && dir == old(dir).(snapshots := if ok then old(dir.snapshots)[temporary := tree.value] else old(dir.snapshots))
    {
      ghost var h0, before := history, dir;
      Act(Action.MakeTemp(temporary), SnapshotStage({temporary}), dir.(snapshots := dir.snapshots[temporary := map[]]));
      ghost var h1 := history;
      ok := AddLinks(temporary, links);
      FramedTrans(SnapshotStage({temporary}), h0, h1, history);
      if !ok {
        ghost var h2 := history;
        RemoveTree(temporary);
        FramedTrans(SnapshotStage({temporary}), h0, h2, history);
        assert dir.snapshots == before.snapshots;
      } else {
        assert dir.snapshots == before.snapshots[temporary := BuildTree(before.blobs, links).value];
      }
    }

    /** Lines 350-395: build the snapshot aside, then put it in place. */
    method PublishSnapshot(s: SnapshotEntry) returns (ok: bool)
      requires Valid() && (s.SnapshotEntry? ==> NoPartLinks(s.links))
      modifies this`dir, this`history
      ensures Valid() && Framed(SnapshotStage(Touched(s)), old(history), history)
      ensures dir == old(dir).(snapshots := dir.snapshots)
      ensures Published(dir.snapshots, ok) == Publish(old(dir.blobs), old(dir.snapshots), s)
      ensures FirstTimeWhole(s, old(history), history)
    {
      if s.BadSnapshot? || SafeLeafName(s.commit).None? {
        return false;
      }
      var commit := SafeLeafName(s.commit).value;
      var temporary := TempName(commit, s.tag);
      if temporary in dir.snapshots {
        return false;
      }
      assert |temporary| > |commit|;
      ghost var h0, before, tree := history, dir.snapshots, BuildTree(dir.blobs, s.links);
      var built := Stage(commit, temporary, s.links);
      ghost var h1 := history;
      FramedWiden({temporary}, Touched(s), h0, h1);
      if commit !in before {
        AbsentStaysAbsent(SnapshotStage({temporary}), h0, h1, commit, tree);
      }
      if !built {
        return false;
      }
      Install(commit, temporary, s.renamed);
      FramedTrans(SnapshotStage(Touched(s)), h0, h1, history);
      if commit !in before {
        WholeAppend(h0, h1, history, commit, tree);
      }
      assert dir.snapshots == if s.renamed then before[commit := tree.value] else before - {commit};
      return s.renamed;
    }

    /** One turn of the loop over the snapshots, which began when the history was `start`. */
    method PublishNext(entries: seq<SnapshotEntry>, k: nat, ghost start: seq<Dir>, ghost before: map<string, Tree>) returns (done: bool)
      requires Valid() && k < |entries| && (entries[k].SnapshotEntry? ==> NoPartLinks(entries[k].links))
      requires start != [] && Framed(SnapshotStage(AllTouched(entries)), start, history)
      requires FirstTimesWhole(entries, start, history, dir.blobs) && ToCome(entries, k, start, history)
      requires Published(dir.snapshots, true) == PublishAll(dir.blobs, before, entries[..k])
      modifies this`dir, this`history
      ensures Valid() && Framed(SnapshotStage(AllTouched(entries)), start, history)
      ensures dir == old(dir).(snapshots := dir.snapshots)
      ensures Published(dir.snapshots, done) == PublishAll(dir.blobs, before, entries[..k + 1])
      ensures FirstTimesWhole(entries, start, history, dir.blobs) && ToCome(entries, k + 1, start, history)
    {
      ghost var h := history;
      assert entries[..k + 1][..k] == entries[..k];
      done := PublishSnapshot(entries[k]);
      NextFirstTimes(entries, k, start, h, history, dir.blobs);
      FramedWiden(Touched(entries[k]), AllTouched(entries), h, history);
      FramedTrans(SnapshotStage(AllTouched(entries)), start, h, history);
    }

    /** Stage 2. */
    method PublishSnapshots(entries: seq<SnapshotEntry>) returns (ok: bool)
      requires Valid() && forall s :: s in entries && s.SnapshotEntry? ==> NoPartLinks(s.links)
      modifies this`dir, this`history
      ensures Valid() && Framed(SnapshotStage(AllTouched(entries)), old(history), history)
      ensures dir == old(dir).(snapshots := dir.snapshots)
      ensures Published(dir.snapshots, ok) == PublishAll(old(dir.blobs), old(dir.snapshots), entries)
      ensures FirstTimesWhole(entries, old(history), history, old(dir.blobs))
    {
      NothingYet(entries, history, dir.blobs);
      ghost var all := AllTouched(entries);
      var k := 0;
      while k < |entries|
        invariant 0 <= k <= |entries|
        invariant Valid() && Framed(SnapshotStage(all), old(history), history)
        invariant dir == old(dir).(snapshots := dir.snapshots)
        invariant Published(dir.snapshots, true) == PublishAll(old(dir.blobs), old(dir.snapshots), entries[..k])
        invariant FirstTimesWhole(entries, old(history), history, old(dir.blobs)) && ToCome(entries, k, old(history), history)
      {
        assert entries[k] in entries;
        var done := PublishNext(entries, k, old(history), old(dir.snapshots));
        if !done {
          PublishErrorIsFinal(old(dir.blobs), old(dir.snapshots), entries, k + 1);
          return false;
        }
        k := k + 1;
      }
      assert entries[..k] == entries;
      return true;
    }

    /** Stage 3: a ref file is truncated, then written. */
    method PublishRefs(entries: seq<RefEntry>) returns (ok: bool)
      requires Valid()
      modifies this`dir, this`history
      ensures Valid() && Framed(RefStage, old(history), history)
      ensures dir == old(dir).(refs := dir.refs)
      ensures Referenced(dir.refs, ok) == WriteRefs(old(dir.refs), entries)
    {
      var k := 0;
      while k < |entries|
        invariant 0 <= k <= |entries|
        invariant Valid() && Framed(RefStage, old(history), history)
        invariant dir == old(dir).(refs := dir.refs)
        invariant Referenced(dir.refs, true) == WriteRefs(old(dir.refs), entries[..k])
      {
        assert entries[..k + 1][..k] == entries[..k];
        if !CanWrite(dir.refs, entries[k]) {
          RefErrorIsFinal(old(dir.refs), entries, k + 1);
          return false;
        }
        ghost var h := history;
        WriteRef(SafeJoin(entries[k].name).value, Text.Trim(Text.PySpace, entries[k].commit));
        FramedTrans(RefStage, old(history), h, history);
        k := k + 1;
      }
      assert entries[..k] == entries;
      return true;
    }

    method WriteRef(path: Path, commit: string)
      requires Valid()
      modifies this`dir, this`history
      ensures Valid() && Framed(RefStage, old(history), history)
      ensures dir == old(dir).(refs := old(dir.refs)[path := commit])
    {
      ghost var refs := dir.refs;
      Act(Action.WriteRef(path, ""), RefStage, dir.(refs := dir.refs[path := ""]));
      ghost var h := history;
      Act(Action.WriteRef(path, commit), RefStage, dir.(refs := dir.refs[path := commit]));
      FramedTrans(RefStage, old(history), h, history);
      assert dir.refs == refs[path := commit];
    }

    /** Stages 2 and 3, over the blobs that are in place. */
    method PublishModel(snapshots: seq<SnapshotEntry>, refs: seq<RefEntry>) returns (ok: bool)
      requires Valid() && forall s :: s in snapshots && s.SnapshotEntry? ==> NoPartLinks(s.links)
      modifies this`dir, this`history
      ensures Valid() && old(history) <= history
      ensures var published := PublishAll(old(dir.blobs), old(dir.snapshots), snapshots);
              && dir == Dir(old(dir.blobs), published.snapshots,
                            if published.ok then WriteRefs(old(dir.refs), refs).refs else old(dir.refs))
              && (ok <==> published.ok && WriteRefs(old(dir.refs), refs).ok)
              && RefsComeLast(old(history), history, old(dir.refs), published.ok, old(dir.blobs), published.snapshots)
      ensures FirstTimesWhole(snapshots, old(history), history, old(dir.blobs))
    {
      ghost var h0, refs0 := history, dir.refs;
      ghost var published := PublishAll(dir.blobs, dir.snapshots, snapshots);
      ok := PublishSnapshots(snapshots);
      ghost var h1 := history;
      QuietStage(SnapshotStage(AllTouched(snapshots)), h0, h1, refs0, published.ok, dir.blobs, published.snapshots);
      if ok {
        ok := PublishRefs(refs);
        FinalStage(h1, history, refs0, dir.blobs, published.snapshots);
        FirstTimesThroughRefs(snapshots, h0, h1, history, dir.blobs);
        RefsAppend(h0, h1, history, refs0, true, dir.blobs, published.snapshots);
      }
    }

    /**
     The whole pull.  The disk ends as the three stages say, every state on the way follows from the
     one before by one atomic action, refs are written only after all blobs and snapshots are in place, and
     a commit published for the first time is absent or complete at every moment.
     */
    method PullModel(blobs: seq<Entry>, snapshots: seq<SnapshotEntry>, refs: seq<RefEntry>, server: Server) returns (ok: bool)
      requires Valid() && Blobs(true) == Start(dir.blobs)
      requires forall s :: s in snapshots && s.SnapshotEntry? ==> NoPartLinks(s.links)
      modifies this
      ensures Valid() && old(history) <= history
      ensures var fetched := FetchAll(hash, old(dir.blobs), blobs, server);
              var published := PublishAll(fetched.files, old(dir.snapshots), snapshots);
              && Blobs(fetched.ok) == fetched
              && (ok <==> fetched.ok && published.ok && WriteRefs(old(dir.refs), refs).ok)
              && dir.snapshots == (if fetched.ok then published.snapshots else old(dir.snapshots))
              && dir.refs == (if fetched.ok && published.ok then WriteRefs(old(dir.refs), refs).refs else old(dir.refs))
              && RefsComeLast(old(history), history, old(dir.refs), fetched.ok && published.ok, fetched.files, published.snapshots)
              && FirstTimesWhole(snapshots, old(history), history, fetched.files)
    {
      ghost var h0, refs0 := history, dir.refs;
      ghost var fetched := FetchAll(hash, dir.blobs, blobs, server);
      ghost var published := PublishAll(fetched.files, dir.snapshots, snapshots);
      ok := FetchBlobs(blobs, server);
      ghost var h1 := history;
      FramedEnds(BlobStage, h0, h1);
      QuietStage(BlobStage, h0, h1, refs0, fetched.ok && published.ok, fetched.files, published.snapshots);
      NothingYet(snapshots, h1, fetched.files);
      if ok {
        ok := PublishModel(snapshots, refs);
        RefsAppend(h0, h1, history, refs0, published.ok, fetched.files, published.snapshots);
      }
      FirstTimesAfterBlobs(snapshots, h0, h1, history, fetched.files);
    }
  }

  /** The names a snapshot entry may create or remove below `snapshots/`. */
  function Touched(s: SnapshotEntry): set<string> {
    if s.SnapshotEntry? && SafeLeafName(s.commit).Some?
    then {SafeLeafName(s.commit).value, TempName(SafeLeafName(s.commit).value, s.tag)} else {}
  }

  function AllTouched(entries: seq<SnapshotEntry>): set<string> {
    set s, name | s in entries && name in Touched(s) :: name
  }

  predicate NoPartLinks(links: seq<LinkEntry>) {
    forall l :: l in links && LinkBlob(l).Some? ==> !IsPart(LinkBlob(l).value)
  }

  predicate Named(s: SnapshotEntry) {
    s.SnapshotEntry? && SafeLeafName(s.commit).Some?
  }

  /** A commit that was not there before is, at every moment, absent or complete; one that cannot be built is always absent. */
  predicate FirstTimeWhole(s: SnapshotEntry, h0: seq<Dir>, h1: seq<Dir>)
    requires h0 != []
  {
    Named(s) && SafeLeafName(s.commit).value !in h0[|h0| - 1].snapshots ==>
      WholeOrAbsent(h0, h1, SafeLeafName(s.commit).value, BuildTree(h0[|h0| - 1].blobs, s.links))
  }

  /** No other entry works on the directory of this entry's commit. */
  predicate NamedOnce(entries: seq<SnapshotEntry>, i: nat)
    requires i < |entries|
  {
    Named(entries[i]) && forall j :: 0 <= j < |entries| && j != i ==> SafeLeafName(entries[i].commit).value !in Touched(entries[j])
  }

  predicate IsFirstTime(entries: seq<SnapshotEntry>, i: nat, h0: seq<Dir>)
    requires i < |entries| && h0 != []
  {
    NamedOnce(entries, i) && SafeLeafName(entries[i].commit).value !in h0[|h0| - 1].snapshots
  }

  predicate FirstTimeAt(entries: seq<SnapshotEntry>, i: nat, h0: seq<Dir>, h1: seq<Dir>, blobs: Files)
    requires i < |entries| && h0 != []
  {
    IsFirstTime(entries, i, h0) ==> WholeOrAbsent(h0, h1, SafeLeafName(entries[i].commit).value, BuildTree(blobs, entries[i].links))
  }

  /** Since `h0`: every commit of one entry that was not there is, at every moment, absent or complete over the final blobs. */
  predicate FirstTimesWhole(entries: seq<SnapshotEntry>, h0: seq<Dir>, h1: seq<Dir>, blobs: Files)
    requires h0 != []
  {
    forall i: nat :: i < |entries| ==> FirstTimeAt(entries, i, h0, h1, blobs)
  }

  predicate ToComeAt(entries: seq<SnapshotEntry>, i: nat, h0: seq<Dir>, h1: seq<Dir>)
    requires i < |entries| && h0 != [] && h1 != []
  {
    IsFirstTime(entries, i, h0) ==> SafeLeafName(entries[i].commit).value !in h1[|h1| - 1].snapshots
  }

  /** The commits of the entries from `k` on that were not there are not there yet. */
  predicate ToCome(entries: seq<SnapshotEntry>, k: nat, h0: seq<Dir>, h1: seq<Dir>)
    requires h0 != [] && h1 != []
  {
    forall i: nat :: k <= i < |entries| ==> ToComeAt(entries, i, h0, h1)
  }

  lemma NothingYet(entries: seq<SnapshotEntry>, h0: seq<Dir>, blobs: Files)
    requires h0 != []
    ensures FirstTimesWhole(entries, h0, h0, blobs) && ToCome(entries, 0, h0, h0)
  {
  }

  /** Publishing entry `k` keeps what holds of the others, and does its own part. */
  lemma NextFirstTime(entries: seq<SnapshotEntry>, k: nat, h0: seq<Dir>, h1: seq<Dir>, h2: seq<Dir>, blobs: Files, i: nat)
    requires k < |entries| && i < |entries| && h0 != [] && h0 <= h1 && Framed(SnapshotStage(Touched(entries[k])), h1, h2)
    requires FirstTimesWhole(entries, h0, h1, blobs) && ToCome(entries, k, h0, h1)
    requires FirstTimeWhole(entries[k], h1, h2) && h1[|h1| - 1].blobs == blobs
    ensures FirstTimeAt(entries, i, h0, h2, blobs) && (i > k ==> ToComeAt(entries, i, h0, h2))
  {
    assert FirstTimeAt(entries, i, h0, h1, blobs);
    if IsFirstTime(entries, i, h0) {
      var commit, tree := SafeLeafName(entries[i].commit).value, BuildTree(blobs, entries[i].links);
      if i >= k {
        assert ToComeAt(entries, i, h0, h1);
      }
      if i == k {
        WholeAppend(h0, h1, h2, commit, tree);
      } else {
        UntouchedStaysWhole(SnapshotStage(Touched(entries[k])), h0, h1, h2, commit, tree);
      }
    }
  }

  lemma NextFirstTimes(entries: seq<SnapshotEntry>, k: nat, h0: seq<Dir>, h1: seq<Dir>, h2: seq<Dir>, blobs: Files)
    requires k < |entries| && h0 != [] && h0 <= h1 && Framed(SnapshotStage(Touched(entries[k])), h1, h2)
    requires FirstTimesWhole(entries, h0, h1, blobs) && ToCome(entries, k, h0, h1)
    requires FirstTimeWhole(entries[k], h1, h2) && h1[|h1| - 1].blobs == blobs
    ensures FirstTimesWhole(entries, h0, h2, blobs) && ToCome(entries, k + 1, h0, h2)
  {
    forall i: nat | i < |entries|
      ensures FirstTimeAt(entries, i, h0, h2, blobs) && (i > k ==> ToComeAt(entries, i, h0, h2))
    {
      NextFirstTime(entries, k, h0, h1, h2, blobs, i);
    }
  }

  /** The stage of the blobs before, and that of the refs after, leave it all as it is. */
  lemma FirstTimesAfterBlobs(entries: seq<SnapshotEntry>, h0: seq<Dir>, h1: seq<Dir>, h2: seq<Dir>, blobs: Files)
    requires Framed(BlobStage, h0, h1) && h1 <= h2 && FirstTimesWhole(entries, h1, h2, blobs)
    ensures FirstTimesWhole(entries, h0, h2, blobs)
  {
    forall i: nat | i < |entries|
      ensures FirstTimeAt(entries, i, h0, h2, blobs)
    {
      if IsFirstTime(entries, i, h0) {
        var commit, tree := SafeLeafName(entries[i].commit).value, BuildTree(blobs, entries[i].links);
        AbsentStaysAbsent(BlobStage, h0, h1, commit, tree);
        assert FirstTimeAt(entries, i, h1, h2, blobs);
        WholeAppend(h0, h1, h2, commit, tree);
      }
    }
  }

  lemma FirstTimesThroughRefs(entries: seq<SnapshotEntry>, h0: seq<Dir>, h1: seq<Dir>, h2: seq<Dir>, blobs: Files)
    requires h0 != [] && h0 <= h1 && Framed(RefStage, h1, h2) && FirstTimesWhole(entries, h0, h1, blobs)
    ensures FirstTimesWhole(entries, h0, h2, blobs)
  {
    forall i: nat | i < |entries|
      ensures FirstTimeAt(entries, i, h0, h2, blobs)
    {
      assert FirstTimeAt(entries, i, h0, h1, blobs);
      if IsFirstTime(entries, i, h0) {
        UntouchedStaysWhole(RefStage, h0, h1, h2, SafeLeafName(entries[i].commit).value, BuildTree(blobs, entries[i].links));
      }
    }
  }

  predicate RefsAt(h: seq<Dir>, i: nat, refs: map<Path, string>, done: bool, blobs: Files, snapshots: map<string, Tree>)
    requires i < |h|
  {
    h[i].refs != refs ==> done && h[i].blobs == blobs && h[i].snapshots == snapshots
  }

  /** Since `h0`: wherever the refs differ from `refs`, blobs and snapshots are the final ones, and both stages succeeded. */
  predicate RefsComeLast(h0: seq<Dir>, h1: seq<Dir>, refs: map<Path, string>, done: bool, blobs: Files, snapshots: map<string, Tree>) {
    forall i: nat :: |h0| <= i < |h1| ==> RefsAt(h1, i, refs, done, blobs, snapshots)
  }

  lemma QuietStage(stage: Stage, h0: seq<Dir>, h1: seq<Dir>, refs: map<Path, string>, done: bool, blobs: Files, snapshots: map<string, Tree>)
    requires Framed(stage, h0, h1) && !stage.RefStage? && h0[|h0| - 1].refs == refs
    ensures RefsComeLast(h0, h1, refs, done, blobs, snapshots)
  {
    forall i: nat | |h0| <= i < |h1|
      ensures RefsAt(h1, i, refs, done, blobs, snapshots)
    {
      assert SameAt(stage, h0, h1, i);
    }
  }

  lemma FinalStage(h0: seq<Dir>, h1: seq<Dir>, refs: map<Path, string>, blobs: Files, snapshots: map<string, Tree>)
    requires Framed(RefStage, h0, h1)
    requires h0[|h0| - 1].blobs == blobs && h0[|h0| - 1].snapshots == snapshots
    ensures RefsComeLast(h0, h1, refs, true, blobs, snapshots)
  {
    forall i: nat | |h0| <= i < |h1|
      ensures RefsAt(h1, i, refs, true, blobs, snapshots)
    {
      assert SameAt(RefStage, h0, h1, i);
    }
  }

  lemma RefsAppend(h0: seq<Dir>, h1: seq<Dir>, h2: seq<Dir>, refs: map<Path, string>, done: bool, blobs: Files, snapshots: map<string, Tree>)
    requires h1 <= h2 && RefsComeLast(h0, h1, refs, done, blobs, snapshots) && RefsComeLast(h1, h2, refs, done, blobs, snapshots)
    ensures RefsComeLast(h0, h2, refs, done, blobs, snapshots)
  {
    forall i: nat | |h0| <= i < |h2|
      ensures RefsAt(h2, i, refs, done, blobs, snapshots)
    {
      if i < |h1| {
        assert RefsAt(h1, i, refs, done, blobs, snapshots);
      }
    }
  }

  lemma {:induction false} FailureIsFinal(hash: Hash, files: Files, entries: seq<Entry>, server: Server, k: nat)
    requires k <= |entries| && !FetchAll(hash, files, entries[..k], server).ok
    ensures FetchAll(hash, files, entries, server) == FetchAll(hash, files, entries[..k], server)
    decreases |entries| - k
  {
    if k == |entries| {
      assert entries[..k] == entries;
    } else {
      assert entries[..k + 1][..k] == entries[..k];
      FailureIsFinal(hash, files, entries, server, k + 1);
    }
  }

  lemma {:induction false} NoTreeAfterError(blobs: Files, links: seq<LinkEntry>, k: nat)
    requires k <= |links| && BuildTree(blobs, links[..k]).None?
    ensures BuildTree(blobs, links).None?
    decreases |links| - k
  {
    if k == |links| {
      assert links[..k] == links;
    } else {
      assert links[..k + 1][..k] == links[..k];
      NoTreeAfterError(blobs, links, k + 1);
    }
  }

  lemma {:induction false} PublishErrorIsFinal(blobs: Files, snapshots: map<string, Tree>, entries: seq<SnapshotEntry>, k: nat)
    requires k <= |entries| && !PublishAll(blobs, snapshots, entries[..k]).ok
    ensures PublishAll(blobs, snapshots, entries) == PublishAll(blobs, snapshots, entries[..k])
    decreases |entries| - k
  {
    if k == |entries| {
      assert entries[..k] == entries;
    } else {
      assert entries[..k + 1][..k] == entries[..k];
      PublishErrorIsFinal(blobs, snapshots, entries, k + 1);
    }
  }

  lemma {:induction false} RefErrorIsFinal(refs: map<Path, string>, entries: seq<RefEntry>, k: nat)
    requires k <= |entries| && !WriteRefs(refs, entries[..k]).ok
    ensures WriteRefs(refs, entries) == WriteRefs(refs, entries[..k])
    decreases |entries| - k
  {
    if k == |entries| {
      assert entries[..k] == entries;
    } else {
      assert entries[..k + 1][..k] == entries[..k];
      RefErrorIsFinal(refs, entries, k + 1);
    }
  }

  lemma LeafIsPlain(value: string)
    ensures SafeLeafName(value).Some? ==> SafeLeafName(value).value != ".."
  {
  }
}
