/**
 What the blob loop of pull_model achieves against an honest server: a resumed download refines an
 uninterrupted one, and repeated pulls converge from any state of the disk.
 Honesty is RFC 9110: 200 carries the whole content, 206 answers a Range request (section 14.2)
 from the offset asked for to the end (section 15.3.7), described by Content-Range (section 14.4).
 */
module HonestServer {
  import opened BlobNames
  import opened BlobFetch
  import opened BlobProperties

  /** Error statuses and transport failures are always possible; accepted bodies are cut or complete, never wrong. */
  predicate HonestReply(c: Bytes, start: nat, r: Response) {
    r.Reply? ==>
      && (r.status == 200 ==> Flat(r.chunks) <= c && (!r.cut ==> Flat(r.chunks) == c))
      && (r.status == 206 ==>
            && 0 < start < |c|
            && r.range.Some? && r.range.value.start == start
            && (r.range.value.total.Some? ==> r.range.value.total.value == |c|)
            && Flat(r.chunks) <= c[start..] && (!r.cut ==> Flat(r.chunks) == c[start..]))
  }

  /** An honest answer that arrives completely. */
  predicate Served(c: Bytes, start: nat, r: Response) {
    HonestReply(c, start, r) && r.Reply? && !r.cut && r.status in {200, 206}
  }

  ghost predicate Honest(name: string, c: Bytes, server: Server) {
    forall s: nat :: HonestReply(c, s, server(name, s))
  }

  /** Every request the agent can make for this blob is answered honestly and completely. */
  ghost predicate ServedFor(name: string, c: Bytes, server: Server) {
    forall s: nat :: s < |c| ==> Served(c, s, server(name, s))
  }

  /** Between attempts: everything is as in `base`, except for a partial file that is a prefix of the content. */
  predicate InFlight(base: Files, files: Files, name: string, c: Bytes) {
    && PartName(name) !in base
    && files - {PartName(name)} == base
    && (PartName(name) in files ==> files[PartName(name)] <= c)
  }

  /** One attempt: it publishes exactly the content, or leaves a partial file that is a prefix of it. */
  lemma AttemptKeepsPrefix(hash: Hash, base: Files, files: Files, e: Entry, c: Bytes, server: Server)
    requires BlobOf(e).Some? && BlobOf(e).value.size == |c| > 0
    requires var b := BlobOf(e).value;
             DigestOk(hash, b.name, c) && !Cached(hash, base, b) && InFlight(base, files, b.name, c)
    requires Honest(BlobOf(e).value.name, c, server)
    ensures var b, q := BlobOf(e).value, FetchEntry(hash, Start(files), e, server);
            && (if q.ok then q.files == base[b.name := c] else InFlight(base, q.files, b.name, c))
            && (ServedFor(b.name, c, server) ==> q.ok)
  {
    var b := BlobOf(e).value;
    var part := PartName(b.name);
    assert part != b.name;
    assert b.name in files <==> b.name in files - {part};
    assert !Cached(hash, files, b);
    var start := ResumeStart(files, b);
    assert part in files ==> files[part] == c[..start];
    assert part in files && start == |c| ==> files[part] == c;
    if !CompletePart(hash, files, b) {
      assert AfterDiscard(hash, files, b) == files;
      var r := server(b.name, start);
      assert HonestReply(c, start, r);
      assert start < |c|;
      if r.Reply? && Resumes(r, start) {
        assert c[..start] + c[start..] == c;
        assert Received(files, b, r) == c[..start] + Flat(r.chunks);
        assert Received(files, b, r) <= c;
      } else if r.Reply? {
        assert Received(files, b, r) == Flat(r.chunks);
      }
    }
  }

  /** Attempts on one blob, one per server behaviour, until one of them succeeds. */
  function Attempts(hash: Hash, files: Files, e: Entry, servers: seq<Server>): Pull {
    if servers == [] then Fail(Start(files), files)
    else
      var p := Attempts(hash, files, e, servers[..|servers| - 1]);
      if p.ok then p else FetchEntry(hash, Start(p.files), e, servers[|servers| - 1])
  }

  /**
   Resume refines one-shot download.  From a disk without a partial file, after any schedule of
   refused, cut, ignored-Range (200) and resumed (206) attempts against an honest server, either the
   blob is not published and the partial file is a prefix of the content, or the disk is exactly the
   one an uninterrupted download leaves.
   */
  lemma {:induction false} ResumeRefinesOneShot(hash: Hash, base: Files, e: Entry, c: Bytes, servers: seq<Server>, oneShot: Server)
    requires BlobOf(e).Some? && BlobOf(e).value.size == |c| > 0
    requires var b := BlobOf(e).value;
             DigestOk(hash, b.name, c) && !Cached(hash, base, b) && PartName(b.name) !in base
    requires forall i :: 0 <= i < |servers| ==> Honest(BlobOf(e).value.name, c, servers[i])
    requires Honest(BlobOf(e).value.name, c, oneShot) && ServedFor(BlobOf(e).value.name, c, oneShot)
    ensures var b, p, one := BlobOf(e).value, Attempts(hash, base, e, servers), FetchEntry(hash, Start(base), e, oneShot);
            && one.ok && one.files == base[b.name := c]
            && (if p.ok then p.files == one.files else InFlight(base, p.files, b.name, c))
            && (servers != [] && ServedFor(b.name, c, servers[|servers| - 1]) ==> p.ok)
  {
    var b := BlobOf(e).value;
    assert base - {PartName(b.name)} == base;
    AttemptKeepsPrefix(hash, base, base, e, c, oneShot);
    if servers != [] {
      var n := |servers| - 1;
      ResumeRefinesOneShot(hash, base, e, c, servers[..n], oneShot);
      var p := Attempts(hash, base, e, servers[..n]);
      if !p.ok {
        AttemptKeepsPrefix(hash, base, p.files, e, c, servers[n]);
      }
    }
  }

  /**
   A server that describes its bodies truthfully but may answer from another offset than the one asked
   for: 206 is sent to Range requests only, and its body is the content from the offset it states.
   */
  predicate Truthful(c: Bytes, start: nat, r: Response) {
    r.Reply? ==>
      && (r.status == 200 ==> Flat(r.chunks) <= c && (!r.cut ==> Flat(r.chunks) == c))
      && (r.status == 206 ==> start > 0)
      && (r.status == 206 && r.range.Some? && r.range.value.start <= |c| ==>
            Flat(r.chunks) <= c[r.range.value.start..] && (!r.cut ==> Flat(r.chunks) == c[r.range.value.start..]))
  }

  ghost predicate TruthfulServer(name: string, c: Bytes, server: Server) {
    forall s: nat :: Truthful(c, s, server(name, s))
  }

  /**
   The Content-Range check alone protects blobs whose names promise no digest: with a truthful server,
   which may answer from a wrong offset, what is published is the content, and a partial file that was a
   prefix of it stays one or goes.
   */
  lemma RangeCheckProtects(hash: Hash, p: Pull, e: Entry, c: Bytes, server: Server)
    requires BlobOf(e).Some? && (BlobOf(e).value.size == 0 || BlobOf(e).value.size == |c|)
    requires var b := BlobOf(e).value;
             !Cached(hash, p.files, b) && (PartName(b.name) in p.files ==> p.files[PartName(b.name)] <= c)
    requires TruthfulServer(BlobOf(e).value.name, c, server)
    ensures var b, part, q := BlobOf(e).value, PartName(BlobOf(e).value.name), FetchEntry(hash, p, e, server);
            && (q.ok ==> b.name in q.files && q.files[b.name] == c)
            && (!q.ok && part in q.files ==> q.files[part] <= c)
  {
    var b, part := BlobOf(e).value, PartName(BlobOf(e).value.name);
    assert part != b.name;
    if !CompletePart(hash, p.files, b) {
      var files := AfterDiscard(hash, p.files, b);
      var start := ResumeStart(files, b);
      var r := server(b.name, start);
      assert Truthful(c, start, r);
      assert part in files ==> files[part] == c[..start];
      if r.Reply? && Resumes(r, start) && RangeOk(r.range, start, b.size) {
        assert c[..start] + c[start..] == c;
        assert Received(files, b, r) == c[..start] + Flat(r.chunks);
        assert Received(files, b, r) <= c;
      } else if r.Reply? && r.status == 200 {
        assert Received(files, b, r) == Flat(r.chunks);
      }
    }
  }

  /** A partial file that is not a prefix of the blob's content. */
  predicate Corrupt(files: Files, content: string -> Bytes, name: string) {
    PartName(name) in files && !(files[PartName(name)] <= content(name))
  }

  function Name(e: Entry): string {
    match BlobOf(e) case Some(b) => b.name case None => ""
  }

  function CorruptNames(files: Files, content: string -> Bytes, entries: seq<Entry>): set<string> {
    set e | e in entries && Corrupt(files, content, Name(e)) :: Name(e)
  }

  /** Every entry is digest-named, its size is true and positive, and its digest identifies its content. */
  ghost predicate TrueManifest(hash: Hash, content: string -> Bytes, entries: seq<Entry>) {
    forall e :: e in entries ==> TrueEntry(hash, content, e)
  }

  ghost predicate TrueEntry(hash: Hash, content: string -> Bytes, e: Entry) {
    && BlobOf(e).Some?
    && BlobOf(e).value.size == |content(Name(e))| > 0
    && ExpectedSha256(Name(e)).Some?
    && (forall data :: hash(data) == ExpectedSha256(Name(e)).value <==> data == content(Name(e)))
  }

  ghost predicate Uninterrupted(content: string -> Bytes, server: Server) {
    forall n :: ServedFor(n, content(n), server)
  }

  /**
   Exactly when one uninterrupted attempt fails: the blob is not in place and a corrupt, nonempty,
   too short partial file is completed by a 206 answer.  The failed attempt removes that file.
   */
  lemma AttemptFailsIff(hash: Hash, content: string -> Bytes, p: Pull, e: Entry, server: Server)
    requires TrueEntry(hash, content, e) && Uninterrupted(content, server)
    ensures var b, part, q := BlobOf(e).value, PartName(Name(e)), FetchEntry(hash, p, e, server);
            && (!q.ok <==>
                  && !Cached(hash, p.files, b)
                  && Corrupt(p.files, content, b.name)
                  && 0 < |p.files[part]| < b.size
                  && server(b.name, |p.files[part]|).status == 206)
            && (!q.ok ==> part !in q.files)
            && (Corrupt(q.files, content, b.name) ==> Corrupt(p.files, content, b.name))
  {
    var b, part, c := BlobOf(e).value, PartName(Name(e)), content(Name(e));
    PartIsNeverDigest(b.name);
    if !Cached(hash, p.files, b) && !CompletePart(hash, p.files, b) {
      var files := AfterDiscard(hash, p.files, b);
      var start := ResumeStart(files, b);
      var r := server(b.name, start);
      assert start < |c|;
      assert ServedFor(b.name, c, server);
      assert Served(c, start, r);
      if Resumes(r, start) {
        assert c[..start] + c[start..] == c;
        assert Received(files, b, r) == files[part] + c[start..];
        assert Received(files, b, r)[..start] == files[part];
        assert Received(files, b, r) == c <==> files[part] == c[..start];
      } else {
        assert Received(files, b, r) == [] + c == c;
      }
    }
  }

  /** Processing one entry spoils no other entry's partial file, and failing repairs its own. */
  lemma CorruptShrinks(hash: Hash, content: string -> Bytes, p: Pull, e: Entry, server: Server, f: Entry)
    requires TrueEntry(hash, content, e) && TrueEntry(hash, content, f) && Uninterrupted(content, server)
    ensures var q := FetchEntry(hash, p, e, server);
            && (Corrupt(q.files, content, Name(f)) ==> Corrupt(p.files, content, Name(f)))
            && (!q.ok ==> Corrupt(p.files, content, Name(e)) && !Corrupt(q.files, content, Name(e)))
  {
    AttemptFailsIff(hash, content, p, e, server);
    if Name(f) != Name(e) {
      EntryEffect(hash, p, e, server);
      var x := PartName(Name(f));
      if x == PartName(Name(e)) {
        PartInjective(Name(f), Name(e));
      }
      PartIsNeverDigest(Name(f));
      assert SameFile(p.files, FetchEntry(hash, p, e, server).files, x);
    }
  }

  /** A failed pull has strictly fewer corrupt partial files than the disk it started from; none appears. */
  lemma {:induction false} FailureShrinksCorruption(hash: Hash, content: string -> Bytes, files: Files, entries: seq<Entry>,
                                                    all: seq<Entry>, server: Server)
    requires TrueManifest(hash, content, all) && entries <= all && Uninterrupted(content, server)
    ensures var q := FetchAll(hash, files, entries, server);
            && CorruptNames(q.files, content, all) <= CorruptNames(files, content, all)
            && (!q.ok ==> CorruptNames(q.files, content, all) < CorruptNames(files, content, all))
  {
    if entries != [] {
      var n := |entries| - 1;
      var p := FetchAll(hash, files, entries[..n], server);
      FailureShrinksCorruption(hash, content, files, entries[..n], all, server);
      if p.ok {
        var e := entries[n];
        assert e == all[n];
        var q := FetchEntry(hash, p, e, server);
        forall f | f in all && Corrupt(q.files, content, Name(f))
          ensures Corrupt(p.files, content, Name(f))
        {
          CorruptShrinks(hash, content, p, e, server, f);
        }
        CorruptShrinks(hash, content, p, e, server, e);
        if !q.ok {
          assert Name(e) in CorruptNames(p.files, content, all);
          assert Name(e) !in CorruptNames(q.files, content, all);
        }
      }
    }
  }

  /** Pulls of one manifest, repeated until one succeeds. */
  function Pulls(hash: Hash, files: Files, entries: seq<Entry>, servers: seq<Server>): Pull {
    if servers == [] then Fail(Start(files), files)
    else
      var p := Pulls(hash, files, entries, servers[..|servers| - 1]);
      if p.ok then p else FetchAll(hash, p.files, entries, servers[|servers| - 1])
  }

  lemma ProperSubsetIsSmaller(a: set<string>, b: set<string>)
    requires a < b
    ensures |a| < |b|
  {
    assert b == a + (b - a);
    assert b - a != {};
    assert |b| == |a| + |b - a|;
  }

  lemma {:induction false} EachFailureCounts(hash: Hash, content: string -> Bytes, files: Files, entries: seq<Entry>, servers: seq<Server>)
    requires TrueManifest(hash, content, entries)
    requires forall i :: 0 <= i < |servers| ==> Uninterrupted(content, servers[i])
    ensures var p := Pulls(hash, files, entries, servers);
            !p.ok ==> |CorruptNames(p.files, content, entries)| + |servers| <= |CorruptNames(files, content, entries)|
  {
    if servers != [] {
      var n := |servers| - 1;
      EachFailureCounts(hash, content, files, entries, servers[..n]);
      var p := Pulls(hash, files, entries, servers[..n]);
      if !p.ok {
        FailureShrinksCorruption(hash, content, p.files, entries, entries, servers[n]);
        var q := FetchAll(hash, p.files, entries, servers[n]);
        if !q.ok {
          ProperSubsetIsSmaller(CorruptNames(q.files, content, entries), CorruptNames(p.files, content, entries));
        }
      }
    }
  }

  lemma {:induction false} PullsKeepVerified(hash: Hash, files: Files, entries: seq<Entry>, servers: seq<Server>, name: string)
    requires Verified(hash, files, name)
    ensures Verified(hash, Pulls(hash, files, entries, servers).files, name)
  {
    if servers != [] {
      var n := |servers| - 1;
      PullsKeepVerified(hash, files, entries, servers[..n], name);
      var p := Pulls(hash, files, entries, servers[..n]);
      if !p.ok {
        VerifiedStaysAll(hash, p.files, entries, servers[n], name);
      }
    }
  }

  /**
   Convergence.  From any state of the disk, uninterrupted pulls of a true manifest from an honest
   server succeed within one attempt more than there are corrupt partial files, the blobs end up with
   the right content, and no verified blob is spoiled on the way.
   */
  lemma Convergence(hash: Hash, content: string -> Bytes, files: Files, entries: seq<Entry>, servers: seq<Server>)
    requires TrueManifest(hash, content, entries)
    requires forall i :: 0 <= i < |servers| ==> Uninterrupted(content, servers[i])
    requires |servers| > |CorruptNames(files, content, entries)|
    ensures var p := Pulls(hash, files, entries, servers);
            && p.ok
            && (forall e :: e in entries ==> Name(e) in p.files && p.files[Name(e)] == content(Name(e)))
            && (forall x :: Verified(hash, files, x) ==> Verified(hash, p.files, x))
  {
    EachFailureCounts(hash, content, files, entries, servers);
    PullsEndCached(hash, content, files, entries, servers);
    forall x | Verified(hash, files, x)
      ensures Verified(hash, Pulls(hash, files, entries, servers).files, x)
    {
      PullsKeepVerified(hash, files, entries, servers, x);
    }
  }

  lemma {:induction false} PullsEndCached(hash: Hash, content: string -> Bytes, files: Files, entries: seq<Entry>, servers: seq<Server>)
    requires TrueManifest(hash, content, entries)
    ensures var p := Pulls(hash, files, entries, servers);
            p.ok ==> forall e :: e in entries ==> Name(e) in p.files && p.files[Name(e)] == content(Name(e))
  {
    if servers != [] {
      var n := |servers| - 1;
      PullsEndCached(hash, content, files, entries, servers[..n]);
      var p := Pulls(hash, files, entries, servers[..n]);
      var q := FetchAll(hash, p.files, entries, servers[n]);
      if !p.ok && q.ok {
        ManifestIntact(hash, p.files, entries, servers[n]);
        forall e | e in entries
          ensures Name(e) in q.files && q.files[Name(e)] == content(Name(e))
        {
          assert TrueEntry(hash, content, e);
          assert Verified(hash, q.files, Name(e));
        }
      }
    }
  }

  /**
   Resumption needs a known size.  When the manifest states none and the partial file already holds
   the whole content, an attempt succeeds exactly when the server ignores the Range header; a server
   that answers 416 (RFC 9110, section 15.5.17) leaves the disk as it was, so the pull never ends.
   */
  lemma UnknownSizeStalls(hash: Hash, files: Files, e: Entry, c: Bytes, server: Server)
    requires BlobOf(e).Some? && BlobOf(e).value.size == 0 && |c| > 0
    requires var b := BlobOf(e).value;
             DigestOk(hash, b.name, c) && !Cached(hash, files, b) && PartName(b.name) in files && files[PartName(b.name)] == c
    requires Honest(BlobOf(e).value.name, c, server)
    ensures var r, q := server(BlobOf(e).value.name, |c|), FetchEntry(hash, Start(files), e, server);
            && (q.ok <==> r.Reply? && r.status == 200 && !r.cut)
            && (r.Reply? && r.status == 416 ==> q.files == files)
  {
    var b := BlobOf(e).value;
    var r := server(b.name, |c|);
    assert HonestReply(c, |c|, r);
    if r.Reply? && r.status == 200 && !r.cut {
      assert Received(files, b, r) == [] + c == c;
    }
  }
}
