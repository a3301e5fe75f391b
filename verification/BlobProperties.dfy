/** What the blob loop of pull_model guarantees for any server: integrity, accounting, idempotence. */
module BlobProperties {
  import opened Prelude
  import opened BlobNames
  import opened BlobFetch
  import Text

  ghost predicate CollisionFree(hash: Hash) {
    forall a, b :: hash(a) == hash(b) ==> a == b
  }

  /** No manifest name ends in ".part", and entries that share a name state the same size. */
  predicate WellNamed(entries: seq<Entry>) {
    && (forall e :: e in entries && BlobOf(e).Some? ==> !IsPart(BlobOf(e).value.name))
    && (forall e, f :: e in entries && f in entries && BlobOf(e).Some? && BlobOf(f).Some?
                       && BlobOf(e).value.name == BlobOf(f).value.name
                       ==> BlobOf(e) == BlobOf(f))
  }

  predicate AllCached(hash: Hash, files: Files, entries: seq<Entry>) {
    forall e :: e in entries ==> BlobOf(e).Some? && Cached(hash, files, BlobOf(e).value)
  }

  /** A file whose name promises a digest and whose bytes keep the promise. */
  predicate Verified(hash: Hash, files: Files, name: string) {
    name in files && ExpectedSha256(name).Some? && DigestOk(hash, name, files[name])
  }

  predicate SameFile(a: Files, b: Files, name: string) {
    (name in a <==> name in b) && (name in a ==> a[name] == b[name])
  }

  function SumSizes(files: Files, entries: seq<Entry>): nat {
    if entries == [] then 0
    else
      var n := |entries| - 1;
      SumSizes(files, entries[..n])
      + (match BlobOf(entries[n])
         case None => 0
         case Some(b) => if b.name in files then |files[b.name]| else 0)
  }

  /** One entry touches its own blob and its own partial file, nothing else; success leaves the blob cached. */
  lemma EntryEffect(hash: Hash, p: Pull, e: Entry, server: Server)
    ensures var q := FetchEntry(hash, p, e, server);
            && (q.ok ==> BlobOf(e).Some? && Cached(hash, q.files, BlobOf(e).value))
            && (BlobOf(e).None? ==> q.files == p.files)
            && (BlobOf(e).Some? ==>
                  && (forall x :: x != BlobOf(e).value.name && x != PartName(BlobOf(e).value.name) ==> SameFile(p.files, q.files, x))
                  && (!q.ok ==> SameFile(p.files, q.files, BlobOf(e).value.name)))
  {
    if BlobOf(e).Some? {
      var b := BlobOf(e).value;
      assert PartName(b.name) != b.name;
    }
  }

  /** A transfer counts the bytes it received and the bytes it resumed from; together they are the blob. */
  lemma TransferAccounting(hash: Hash, p: Pull, files: Files, b: Blob, r: Response)
    ensures var q := Transfer(hash, p, files, b, r);
            && q.completed - p.completed == (q.downloaded - p.downloaded) + (q.skipped - p.skipped)
            && (if q.ok then b.name in q.files && q.completed == p.completed + |q.files[b.name]| && q.reports == p.reports + [q.completed]
                else q.completed == p.completed && q.reports == p.reports)
  {
    if r.Reply? && Resumes(r, ResumeStart(files, b)) {
      assert |Received(files, b, r)| == ResumeStart(files, b) + |Flat(r.chunks)|;
    }
  }

  /** One entry adds to `completed` what it adds to `downloaded` and `skipped`: the size of its blob, or nothing on error. */
  lemma EntryAccounting(hash: Hash, p: Pull, e: Entry, server: Server)
    ensures var q := FetchEntry(hash, p, e, server);
            && q.completed - p.completed == (q.downloaded - p.downloaded) + (q.skipped - p.skipped)
            && (if q.ok then BlobOf(e).Some? && BlobOf(e).value.name in q.files
                             && q.completed == p.completed + |q.files[BlobOf(e).value.name]| && q.reports == p.reports + [q.completed]
                else q.completed == p.completed && q.reports == p.reports)
  {
    if BlobOf(e).Some? {
      var b := BlobOf(e).value;
      var files := AfterDiscard(hash, p.files, b);
      TransferAccounting(hash, p, files, b, server(b.name, ResumeStart(files, b)));
    }
  }

  /** A verified blob stays verified, whichever entry is processed and whatever the server answers. */
  lemma VerifiedStays(hash: Hash, p: Pull, e: Entry, server: Server, name: string)
    requires Verified(hash, p.files, name)
    ensures Verified(hash, FetchEntry(hash, p, e, server).files, name)
  {
    EntryEffect(hash, p, e, server);
    PartIsNeverDigest(name);
    if BlobOf(e).Some? {
      PartIsNeverDigest(BlobOf(e).value.name);
      assert name != BlobOf(e).value.name ==> SameFile(p.files, FetchEntry(hash, p, e, server).files, name);
    }
  }

  lemma {:induction false} VerifiedStaysAll(hash: Hash, files: Files, entries: seq<Entry>, server: Server, name: string)
    requires Verified(hash, files, name)
    ensures Verified(hash, FetchAll(hash, files, entries, server).files, name)
  {
    if entries != [] {
      var n := |entries| - 1;
      VerifiedStaysAll(hash, files, entries[..n], server, name);
      var p := FetchAll(hash, files, entries[..n], server);
      VerifiedStays(hash, p, entries[n], server, name);
    }
  }

  /**
   With any server, a pull that returns leaves every digest-named blob of the manifest in place with
   the right digest; with a collision-free hash it has the stated size too.
   */
  lemma {:induction false} ManifestIntact(hash: Hash, files: Files, entries: seq<Entry>, server: Server)
    requires FetchAll(hash, files, entries, server).ok
    ensures var q := FetchAll(hash, files, entries, server);
            forall e :: e in entries ==>
              && BlobOf(e).Some?
              && (ExpectedSha256(BlobOf(e).value.name).Some? ==>
                    && Verified(hash, q.files, BlobOf(e).value.name)
                    && (CollisionFree(hash) && BlobOf(e).value.size > 0 ==> |q.files[BlobOf(e).value.name]| == BlobOf(e).value.size))
  {
    if entries != [] {
      var n := |entries| - 1;
      var p := FetchAll(hash, files, entries[..n], server);
      ManifestIntact(hash, files, entries[..n], server);
      EntryEffect(hash, p, entries[n], server);
      var q := FetchEntry(hash, p, entries[n], server);
      forall e | e in entries
        ensures BlobOf(e).Some?
        ensures ExpectedSha256(BlobOf(e).value.name).Some? ==>
                  && Verified(hash, q.files, BlobOf(e).value.name)
                  && (CollisionFree(hash) && BlobOf(e).value.size > 0 ==> |q.files[BlobOf(e).value.name]| == BlobOf(e).value.size)
      {
        if e != entries[n] {
          assert e in entries[..n];
          var name := BlobOf(e).value.name;
          if ExpectedSha256(name).Some? {
            VerifiedStays(hash, p, entries[n], server, name);
            assert hash(p.files[name]) == hash(q.files[name]);
          }
        }
      }
    }
  }

  /** An entry that is already settled survives the processing of any other entry. */
  lemma CachedStays(hash: Hash, p: Pull, e: Entry, server: Server, b: Blob)
    requires Cached(hash, p.files, b) && !IsPart(b.name)
    requires BlobOf(e).Some? && BlobOf(e).value.name == b.name ==> BlobOf(e).value == b
    ensures var q := FetchEntry(hash, p, e, server);
            Cached(hash, q.files, b) && q.files[b.name] == p.files[b.name]
  {
    EntryEffect(hash, p, e, server);
    if BlobOf(e).Some? {
      PartIsNeverDigest(BlobOf(e).value.name);
      assert BlobOf(e).value.name != b.name ==> SameFile(p.files, FetchEntry(hash, p, e, server).files, b.name);
    }
  }

  /** On return every manifest entry is cached, so the accounting below speaks of the files on disk. */
  lemma {:induction false} SuccessCachesAll(hash: Hash, files: Files, entries: seq<Entry>, server: Server)
    requires WellNamed(entries)
    requires FetchAll(hash, files, entries, server).ok
    ensures AllCached(hash, FetchAll(hash, files, entries, server).files, entries)
  {
    if entries != [] {
      var n := |entries| - 1;
      var p := FetchAll(hash, files, entries[..n], server);
      SuccessCachesAll(hash, files, entries[..n], server);
      EntryEffect(hash, p, entries[n], server);
      forall e | e in entries && e != entries[n]
        ensures BlobOf(e).Some? && Cached(hash, FetchEntry(hash, p, entries[n], server).files, BlobOf(e).value)
      {
        assert e in entries[..n];
        CachedStays(hash, p, entries[n], server, BlobOf(e).value);
      }
    }
  }

  lemma {:induction false} SumSizesFrame(a: Files, b: Files, entries: seq<Entry>)
    requires forall e :: e in entries && BlobOf(e).Some? ==> SameFile(a, b, BlobOf(e).value.name)
    ensures SumSizes(a, entries) == SumSizes(b, entries)
  {
    if entries != [] {
      SumSizesFrame(a, b, entries[..|entries| - 1]);
      assert entries[|entries| - 1] in entries;
    }
  }

  /**
   Transfer conservation.  At every point `downloaded + skipped == completed`; when the pull returns,
   both are the sum of the final blob sizes over the manifest, each entry counted once.
   */
  lemma {:induction false} TransferConservation(hash: Hash, files: Files, entries: seq<Entry>, server: Server)
    ensures var q := FetchAll(hash, files, entries, server);
            && q.downloaded + q.skipped == q.completed
            && (q.ok && WellNamed(entries) ==> q.completed == SumSizes(q.files, entries))
  {
    if entries != [] {
      var n := |entries| - 1;
      var p := FetchAll(hash, files, entries[..n], server);
      TransferConservation(hash, files, entries[..n], server);
      EntryAccounting(hash, p, entries[n], server);
      var q := FetchEntry(hash, p, entries[n], server);
      if p.ok && q.ok && WellNamed(entries) {
        SuccessCachesAll(hash, files, entries[..n], server);
        forall e | e in entries[..n]
          ensures BlobOf(e).Some? && SameFile(p.files, q.files, BlobOf(e).value.name)
        {
          CachedStays(hash, p, entries[n], server, BlobOf(e).value);
        }
        SumSizesFrame(p.files, q.files, entries[..n]);
      }
    }
  }

  /** When every entry is cached the loop succeeds without a byte from the server and changes nothing. */
  lemma {:induction false} CachedPullIsNoOp(hash: Hash, files: Files, entries: seq<Entry>, server: Server)
    requires AllCached(hash, files, entries)
    ensures var q := FetchAll(hash, files, entries, server);
            q.ok && q.files == files && q.downloaded == 0 && q.skipped == SumSizes(files, entries)
  {
    if entries != [] {
      var n := |entries| - 1;
      CachedPullIsNoOp(hash, files, entries[..n], server);
      assert entries[n] in entries;
    }
  }

  /** A second pull after a successful one transfers nothing, whatever either server does. */
  lemma SecondPullIsFree(hash: Hash, files: Files, entries: seq<Entry>, first: Server, second: Server)
    requires WellNamed(entries)
    requires FetchAll(hash, files, entries, first).ok
    ensures var p := FetchAll(hash, files, entries, first);
            var q := FetchAll(hash, p.files, entries, second);
            q.ok && q.files == p.files && q.downloaded == 0 && q.skipped == p.downloaded + p.skipped
  {
    var p := FetchAll(hash, files, entries, first);
    SuccessCachesAll(hash, files, entries, first);
    CachedPullIsNoOp(hash, p.files, entries, second);
    TransferConservation(hash, files, entries, first);
  }

  /** IEEE 754 doubles as far as they matter here: rounding keeps the order, and integers up to 2^53 are exact. */
  ghost predicate Sound(round: Rounding) {
    (forall x, y :: KeepsOrder(round, x, y)) && (forall i: nat :: ExactAt(round, i))
  }

  predicate KeepsOrder(round: Rounding, x: real, y: real) {
    x <= y ==> round(x) <= round(y)
  }

  predicate ExactAt(round: Rounding, i: nat) {
    i <= 0x20_0000_0000_0000 ==> round(i as real) == i as real
  }

  lemma ScaleUp(x: real, y: real, d: real)
    requires d > 0.0
    ensures x < y <==> x * d < y * d
  {
  }

  lemma DivideOrder(x: real, y: real, d: real)
    requires d > 0.0
    ensures x < y <==> x / d < y / d
  {
    var p, q := x / d, y / d;
    assert p * d == x && q * d == y;
    ScaleUp(p, q, d);
  }

  lemma QuotientOrder(a: nat, b: nat, d: nat)
    requires a <= b && d > 0
    ensures a as real / d as real <= b as real / d as real
    ensures a <= d ==> a as real / d as real <= 1.0
    ensures d as real / d as real == 1.0
  {
    DivideOrder(b as real, a as real, d as real);
    DivideOrder(d as real, a as real, d as real);
    DivideSelf(d as real);
  }

  lemma DivideSelf(d: real)
    requires d > 0.0
    ensures d / d == 1.0
  {
    var p := d / d;
    assert p * d == d && 1.0 * d == d;
    ScaleUp(p, 1.0, d);
    ScaleUp(1.0, p, d);
  }

  lemma TimesHundred(round: Rounding, x: real, y: real)
    requires Sound(round) && x <= y
    ensures round(x * 100.0).Floor <= round(y * 100.0).Floor
    ensures round(0.0 * 100.0).Floor == 0 && round(1.0 * 100.0).Floor == 100
  {
    assert KeepsOrder(round, x * 100.0, y * 100.0);
    assert ExactAt(round, 0) && ExactAt(round, 100);
    assert 0 as real == 0.0 && 100 as real == 100.0;
  }

  lemma Shares(round: Rounding, a: nat, b: nat, d: nat)
    requires Sound(round) && a <= b && d > 0
    ensures 0.0 <= round(a as real / d as real) <= round(b as real / d as real)
    ensures b <= d ==> round(b as real / d as real) <= 1.0
    ensures round(d as real / d as real) == 1.0
  {
    QuotientOrder(a, b, d);
    QuotientOrder(b, b, d);
    assert KeepsOrder(round, a as real / d as real, b as real / d as real);
    assert KeepsOrder(round, 0 as real, a as real / d as real) && KeepsOrder(round, b as real / d as real, 1 as real);
    assert ExactAt(round, 0) && ExactAt(round, 1);
    assert 0 as real == 0.0 && 1 as real == 1.0;
  }

  /** The percentage grows with `completed`, is never negative, and is at most 100 up to the total, where it is 100. */
  lemma PercentOrder(round: Rounding, a: nat, b: nat, total: int)
    requires Sound(round) && a <= b
    ensures 0 <= Percent(round, a, total) <= Percent(round, b, total)
    ensures b <= AtLeastOne(total) ==> Percent(round, b, total) <= 100
    ensures Percent(round, AtLeastOne(total), total) == 100
  {
    var d := AtLeastOne(total);
    Shares(round, a, b, d);
    var x, y := round(a as real / d as real), round(b as real / d as real);
    TimesHundred(round, x, y);
    TimesHundred(round, 0.0, x);
    if b <= d {
      TimesHundred(round, y, 1.0);
    }
  }

  predicate Ascending(reports: seq<nat>, last: nat) {
    && (forall i, j :: 0 <= i < j < |reports| ==> reports[i] <= reports[j])
    && (if reports == [] then last == 0 else reports[|reports| - 1] == last)
  }

  lemma AscendingSnoc(reports: seq<nat>, last: nat, next: nat)
    requires Ascending(reports, last) && last <= next
    ensures Ascending(reports + [next], next)
  {
    assert forall i :: 0 <= i < |reports| ==> reports[i] <= last;
  }

  /** Progress is reported at non-decreasing values of `completed`, the last of them the final one. */
  lemma {:induction false} ReportsAreMonotone(hash: Hash, files: Files, entries: seq<Entry>, server: Server)
    ensures var q := FetchAll(hash, files, entries, server);
            Ascending(q.reports, q.completed)
  {
    if entries != [] {
      var n := |entries| - 1;
      var p := FetchAll(hash, files, entries[..n], server);
      ReportsAreMonotone(hash, files, entries[..n], server);
      EntryAccounting(hash, p, entries[n], server);
      if p.ok && FetchEntry(hash, p, entries[n], server).ok {
        AscendingSnoc(p.reports, p.completed, FetchEntry(hash, p, entries[n], server).completed);
      }
    }
  }

  /** The percentages shown never decrease and are never negative, however the floats are rounded. */
  lemma PercentagesNeverDecrease(hash: Hash, files: Files, entries: seq<Entry>, total: int, server: Server, round: Rounding)
    requires Sound(round)
    ensures var q := FetchAll(hash, files, entries, server);
            forall i, j :: 0 <= i <= j < |q.reports| ==>
              0 <= Percent(round, q.reports[i], total) <= Percent(round, q.reports[j], total) <= Percent(round, q.completed, total)
  {
    var q := FetchAll(hash, files, entries, server);
    ReportsAreMonotone(hash, files, entries, server);
    forall i, j | 0 <= i <= j < |q.reports|
      ensures 0 <= Percent(round, q.reports[i], total) <= Percent(round, q.reports[j], total) <= Percent(round, q.completed, total)
    {
      PercentsAscend(q.reports, q.completed, i, j, total, round);
    }
  }

  lemma PercentsAscend(reports: seq<nat>, last: nat, i: nat, j: nat, total: int, round: Rounding)
    requires Sound(round) && Ascending(reports, last) && i <= j < |reports|
    ensures 0 <= Percent(round, reports[i], total) <= Percent(round, reports[j], total) <= Percent(round, last, total)
  {
    assert reports[i] <= reports[j] <= last;
    PercentOrder(round, reports[i], reports[j], total);
    PercentOrder(round, reports[j], last, total);
  }

  function StatedSize(e: Entry): nat {
    match BlobOf(e) case Some(b) => b.size case None => 0
  }

  /** The sum of the sizes the manifest states. */
  function StatedSum(entries: seq<Entry>): nat {
    if entries == [] then 0 else StatedSum(entries[..|entries| - 1]) + StatedSize(entries[|entries| - 1])
  }

  predicate AllSized(entries: seq<Entry>) {
    forall e :: e in entries && BlobOf(e).Some? ==> BlobOf(e).value.size > 0
  }

  /** With stated sizes, `completed` is the sum stated for the entries processed, whatever stood on the disk before. */
  lemma {:induction false} CompletedIsStated(hash: Hash, files: Files, entries: seq<Entry>, server: Server)
    requires AllSized(entries)
    ensures var q := FetchAll(hash, files, entries, server);
            q.completed <= StatedSum(entries) && (q.ok ==> q.completed == StatedSum(entries))
  {
    if entries != [] {
      var n := |entries| - 1;
      var p := FetchAll(hash, files, entries[..n], server);
      CompletedIsStated(hash, files, entries[..n], server);
      EntryAccounting(hash, p, entries[n], server);
      EntryEffect(hash, p, entries[n], server);
      assert entries[n] in entries;
    }
  }

  /**
   Exactly when a pull that returns has shown at most 100% throughout: when the sum of the stated sizes,
   as a percentage of `total_size`, is at most 100.  One way this holds of failed pulls too.
   */
  lemma WithinHundredIff(hash: Hash, files: Files, entries: seq<Entry>, total: int, server: Server, round: Rounding)
    requires Sound(round) && AllSized(entries)
    ensures var q := FetchAll(hash, files, entries, server);
            && (Percent(round, StatedSum(entries), total) <= 100 ==> forall i :: 0 <= i < |q.reports| ==> Percent(round, q.reports[i], total) <= 100)
            && (q.ok && (forall i :: 0 <= i < |q.reports| ==> Percent(round, q.reports[i], total) <= 100) ==>
                  Percent(round, StatedSum(entries), total) <= 100)
  {
    var q := FetchAll(hash, files, entries, server);
    CompletedIsStated(hash, files, entries, server);
    PercentagesNeverDecrease(hash, files, entries, total, server, round);
    ReportsAreMonotone(hash, files, entries, server);
    PercentOrder(round, q.completed, StatedSum(entries), total);
    PercentOrder(round, 0, AtLeastOne(total), total);
    assert q.reports != [] ==> q.reports[|q.reports| - 1] == q.completed;
  }

  function Exactly(x: real): real {
    x
  }

  /** In exact arithmetic that is a sum below 101% of `total_size`; a sum up to `total_size` is enough under any rounding. */
  lemma WithinHundredExactly(sum: nat, total: int, round: Rounding)
    requires Sound(round)
    ensures Percent(Exactly, sum, total) <= 100 <==> sum * 100 < 101 * AtLeastOne(total)
    ensures sum <= AtLeastOne(total) ==> Percent(round, sum, total) <= 100
  {
    PercentOrder(round, sum, sum, total);
    var d := AtLeastOne(total);
    RatioBelow(sum, d);
    assert Percent(Exactly, sum, total) == (sum as real / d as real * 100.0).Floor;
  }

  lemma RatioBelow(sum: nat, d: nat)
    requires d > 0
    ensures sum as real / d as real * 100.0 < 101.0 <==> sum * 100 < 101 * d
  {
    var q, e := sum as real / d as real, d as real;
    assert q * e == sum as real;
    ScaleUp(q * 100.0, 101.0, e);
    Reorder(q, e);
    assert (sum * 100) as real == sum as real * 100.0 && (101 * d) as real == 101.0 * e;
  }

  lemma Reorder(q: real, e: real)
    ensures q * 100.0 * e == q * e * 100.0
  {
  }

  /** A manifest whose `total_size` is too small: two cached bytes of one show as 200%. */
  lemma PercentCanExceedHundred(hash: Hash, server: Server, round: Rounding)
    requires Sound(round)
    ensures var q := FetchAll(hash, map["b" := [0, 0]], [Entry("b", Some(2))], server);
            q.ok && q.reports == [2] && Percent(round, q.reports[0], 1) == 200
  {
    var files: Files, e := map["b" := [0, 0]], Entry("b", Some(2));
    assert [e][..0] == [];
    assert FetchAll(hash, files, [], server) == Start(files);
    assert Text.Trim(Text.PySpace, "b") == "b";
    assert BlobOf(e) == Some(Blob("b", 2));
    assert ExpectedSha256("b").None? by {
      assert |Lower("b")| == 1;
    }
    assert Cached(hash, files, Blob("b", 2));
    assert FetchAll(hash, files, [e], server) == FetchEntry(hash, Start(files), e, server);
    assert ExactAt(round, 2) && ExactAt(round, 200);
    assert 2 as real == 2.0 && 200 as real == 200.0 && 2 as real / 1 as real == 2.0;
  }

  /** The case the manifest promises: `total_size` is the sum of the sizes, so the bar stays within 0..100 and ends at 100. */
  lemma ProgressEndsAt100(hash: Hash, files: Files, entries: seq<Entry>, total: int, server: Server, round: Rounding)
    requires WellNamed(entries) && Sound(round)
    requires FetchAll(hash, files, entries, server).ok
    requires total == SumSizes(FetchAll(hash, files, entries, server).files, entries)
    ensures var q := FetchAll(hash, files, entries, server);
            && (forall i :: 0 <= i < |q.reports| ==> 0 <= Percent(round, q.reports[i], total) <= 100)
            && (total > 0 ==> q.reports != [] && Percent(round, q.reports[|q.reports| - 1], total) == 100)
  {
    TransferConservation(hash, files, entries, server);
    ReportsAreMonotone(hash, files, entries, server);
    PercentagesNeverDecrease(hash, files, entries, total, server, round);
    PercentOrder(round, total, total, total);
  }

  /** A manifest entry is usable exactly when it is a dict whose stripped hash is one plain file name and whose size is a number; a negative size counts as unknown. */
  lemma EntryMeaning(e: Entry, b: Blob)
    ensures BlobOf(e) == Some(b) <==>
            && e.Entry? && e.size.Some?
            && b.name == Text.Trim(Text.PySpace, e.hash) && SafeJoin(b.name) == Some([b.name]) && '\\' !in b.name
            && b.size == if e.size.value > 0 then e.size.value else 0
  {
    if e.Entry? {
      LeafIsOneComponent(e.hash);
    }
  }

  /**
   What counts as downloaded are the bytes the server sent for the blob, and what counts as skipped is the
   rest of it: all of a blob that was in place or complete, and the part that a transfer resumed from.
   */
  lemma DownloadedIsReceived(hash: Hash, p: Pull, e: Entry, server: Server)
    requires FetchEntry(hash, p, e, server).ok
    ensures var q := FetchEntry(hash, p, e, server);
            && BlobOf(e).Some? && BlobOf(e).value.name in q.files
            && var b := BlobOf(e).value;
               var sent := if Cached(hash, p.files, b) || CompletePart(hash, p.files, b) then []
                           else Flat(server(b.name, ResumeStart(AfterDiscard(hash, p.files, b), b)).chunks);
               && q.downloaded == p.downloaded + |sent|
               && q.skipped == p.skipped + |q.files[b.name]| - |sent|
               && |sent| <= |q.files[b.name]| && q.files[b.name][|q.files[b.name]| - |sent|..] == sent
  {
    EntryAccounting(hash, p, e, server);
    var b := BlobOf(e).value;
    if !Cached(hash, p.files, b) && !CompletePart(hash, p.files, b) {
      var files := AfterDiscard(hash, p.files, b);
      var r := server(b.name, ResumeStart(files, b));
      assert Received(files, b, r)[|Received(files, b, r)| - |Flat(r.chunks)|..] == Flat(r.chunks);
    }
  }
}
