/**
 What one pass of pull_model over the manifest's blob list does to the files of `blobs/`,
 as functions.  SHA-256 is a parameter; the server is a function of the blob name and of the
 offset asked for (0: no Range header).
 */
module BlobFetch {
  import opened Prelude
  import opened BlobNames

  type Bytes = seq<bv8>
  type Files = map<string, Bytes>
  type Hash = Bytes -> string

  /** A manifest entry; `size` is None when int() refuses it. */
  datatype Entry = NotADict | Entry(hash: string, size: Option<int>)
  datatype Blob = Blob(name: string, size: nat)

  /** A parsed Content-Range header (RFC 9110, section 14.4); `total` is None for "*". */
  datatype ContentRange = ContentRange(start: nat, total: Option<nat>)

  /**
   The server's answer.  Refused: the transport failed before a status line.  `cut`: the transport
   failed after these chunks had arrived.  `range` is None when missing or not of the required form.
   */
  datatype Response = Refused | Reply(status: nat, range: Option<ContentRange>, chunks: seq<Bytes>, cut: bool)
  type Server = (string, nat) -> Response

  function BlobOf(e: Entry): Option<Blob> {
    match e
    case NotADict => None
    case Entry(hash, size) =>
      var name := SafeLeafName(hash);
      if name.None? || size.None? then None
      else Some(Blob(name.value, if size.value < 0 then 0 else size.value))
  }

  function Flat(chunks: seq<Bytes>): Bytes {
    if chunks == [] then [] else Flat(chunks[..|chunks| - 1]) + chunks[|chunks| - 1]
  }

  predicate DigestOk(hash: Hash, name: string, data: Bytes) {
    var d := ExpectedSha256(name);
    d.None? || hash(data) == d.value
  }

  /** Lines 220-248: the blob is already in place and needs no request. */
  predicate Cached(hash: Hash, files: Files, b: Blob) {
    && b.name in files
    && (b.size == 0 || |files[b.name]| == b.size)
    && DigestOk(hash, b.name, files[b.name])
  }

  /** Lines 269-280: the partial file is complete and valid, so it is published as it is. */
  predicate CompletePart(hash: Hash, files: Files, b: Blob) {
    && PartName(b.name) in files
    && b.size > 0
    && |files[PartName(b.name)]| == b.size
    && DigestOk(hash, b.name, files[PartName(b.name)])
  }

  /** Lines 255-274: a partial file that cannot be completed is discarded before the request. */
  function AfterDiscard(hash: Hash, files: Files, b: Blob): Files {
    var part := PartName(b.name);
    if part in files && b.size > 0 && |files[part]| >= b.size && !CompletePart(hash, files, b)
    then files - {part}
    else files
  }

  function ResumeStart(files: Files, b: Blob): nat {
    if PartName(b.name) in files then |files[PartName(b.name)]| else 0
  }

  /** _validate_content_range, line 98. */
  predicate RangeOk(range: Option<ContentRange>, start: nat, size: nat) {
    && range.Some?
    && range.value.start == start
    && (size == 0 || range.value.total.None? || range.value.total.value == size)
  }

  predicate Resumes(r: Response, start: nat) {
    r.Reply? && r.status == 206 && start > 0
  }

  /** The response is turned down before the partial file is opened. */
  predicate TurnedDown(r: Response, start: nat, size: nat) {
    r.Refused? || r.status !in {200, 206} || (Resumes(r, start) && !RangeOk(r.range, start, size))
  }

  /** The partial file after the chunks of an accepted response were written (lines 297-317). */
  function Received(files: Files, b: Blob, r: Response): Bytes
    requires r.Reply?
  {
    var part := PartName(b.name);
    (if Resumes(r, ResumeStart(files, b)) && part in files then files[part] else []) + Flat(r.chunks)
  }

  /**
   The state of the loop.  `reports` lists the values of `completed` at which progress was reported;
   the percentage shown is Percent of each.
   */
  datatype Pull = Pull(files: Files, ok: bool, downloaded: nat, skipped: nat, completed: nat, reports: seq<nat>)

  function Start(files: Files): Pull {
    Pull(files, true, 0, 0, 0, [])
  }

  /** How the exact result of a division or multiplication becomes a float. */
  type Rounding = real -> real

  function AtLeastOne(total: int): nat
    ensures AtLeastOne(total) >= 1
  {
    if total < 1 then 1 else total
  }

  /** int((completed / max(total, 1)) * 100): each of the two operations rounds, and int() cuts off. */
  function Percent(round: Rounding, completed: nat, total: int): int {
    round(round(completed as real / AtLeastOne(total) as real) * 100.0).Floor
  }

  predicate ShownAt(round: Rounding, total: int, reports: seq<nat>, percents: seq<int>, i: nat)
    requires i < |reports| == |percents|
  {
    percents[i] == Percent(round, reports[i], total)
  }

  /** The percentages shown are those of the reported values. */
  predicate Shown(round: Rounding, total: int, reports: seq<nat>, percents: seq<int>) {
    |reports| == |percents| && forall i: nat :: i < |reports| ==> ShownAt(round, total, reports, percents, i)
  }

  lemma ShownSnoc(round: Rounding, total: int, reports: seq<nat>, percents: seq<int>, completed: nat)
    requires Shown(round, total, reports, percents)
    ensures Shown(round, total, reports + [completed], percents + [Percent(round, completed, total)])
  {
    forall i: nat | i < |reports| + 1
      ensures ShownAt(round, total, reports + [completed], percents + [Percent(round, completed, total)], i)
    {
      if i < |reports| {
        assert ShownAt(round, total, reports, percents, i);
      }
    }
  }

  function Fail(p: Pull, files: Files): Pull {
    p.(files := files, ok := false)
  }

  function Account(p: Pull, files: Files, down: nat, skip: nat, size: nat): Pull {
    Pull(files, true, p.downloaded + down, p.skipped + skip, p.completed + size,
         p.reports + [p.completed + size])
  }

  /** Lines 286-347, once the partial file stands at `files`. */
  function Transfer(hash: Hash, p: Pull, files: Files, b: Blob, r: Response): Pull {
    var part := PartName(b.name);
    var start := ResumeStart(files, b);
    if TurnedDown(r, start, b.size) then Fail(p, files)
    else
      var data := Received(files, b, r);
      if r.cut then Fail(p, files[part := data])
      else if (b.size > 0 && |data| != b.size) || !DigestOk(hash, b.name, data) then Fail(p, files - {part})
      else Account(p, (files - {part})[b.name := data],
                   |Flat(r.chunks)|, if Resumes(r, start) then start else 0, |data|)
  }

  /** Lines 205-347 for one entry of the manifest. */
  function FetchEntry(hash: Hash, p: Pull, e: Entry, server: Server): Pull {
    if BlobOf(e).None? then Fail(p, p.files)
    else
      var b := BlobOf(e).value;
      var part := PartName(b.name);
      if Cached(hash, p.files, b) then
        Account(p, p.files, 0, |p.files[b.name]|, |p.files[b.name]|)
      else if CompletePart(hash, p.files, b) then
        Account(p, (p.files - {part})[b.name := p.files[part]], 0, b.size, b.size)
      else
        var files := AfterDiscard(hash, p.files, b);
        Transfer(hash, p, files, b, server(b.name, ResumeStart(files, b)))
  }

  /** The whole blob loop: it stops at the first error. */
  function FetchAll(hash: Hash, files: Files, entries: seq<Entry>, server: Server): Pull {
    if entries == [] then Start(files)
    else
      var n := |entries| - 1;
      var p := FetchAll(hash, files, entries[..n], server);
      if p.ok then FetchEntry(hash, p, entries[n], server) else p
  }
}
